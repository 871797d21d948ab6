/** PerlinNoisePane's frame: every pixel of a width x height grid samples
    the noise at (x, y, t) for the frame time t, the running bounds min and
    max (kept across frames) are widened to cover the samples, and each
    pixel is shown as the gray level (value - min) / (max - min). The noise
    library is the parameter `sample`. */
module PerlinPane {
  import opened Wrappers

  /** Double.MAX_VALUE, (2^53 - 1) * 2^971. */
  const DoubleMax: real :=
    179769313486231570814527423731704356798070567525844996598917476803157260780028538760589558632766878171540458953514382464234321326889464182768467546703537516986049910576551282076245490090389328944075868508455133942304583236903222948165808559332123348274797826204144723168738177180919299881250404026184124858368.0

  /** Double.MIN_VALUE, 2^-1074: the smallest POSITIVE double. */
  const DoubleMinValue: real := 1.0 /
    202402253307310618352495346718917307049556649764142118356901358027430339567995346891960383701437124495187077864316811911389808737385793476867013399940738509921517424276566361364466907742093216341239767678472745068562007483424692698618103355649159556340810056512358769552333414615230502532186327508646006263307707741093494784.0

  /** perlin.getValue(x, y, t). */
  type Sampler = (int, int, int) -> real

  /** The pane's fields: the running bounds and the frame time. */
  datatype Noise = Noise(min: real, max: real, currentTime: int)

  /** The fields as the source initialises them: max starts at the smallest
      positive double. */
  const InitialAsWritten: Noise := Noise(DoubleMax, DoubleMinValue, 0)

  /** The fields with max starting at the lowest double, so that the first
      frame's bounds are its own extreme samples. */
  const Initial: Noise := Noise(DoubleMax, -DoubleMax, 0)

  /** The colour Color.gray(g) gives a pixel: a gray level, or the colour
      whose channels are NaN when g is 0 / 0 (NaN passes the range test). */
  datatype Shade = Gray(level: real) | NotANumber

  /** A frame's outcome: the pane's new fields and the image. */
  datatype Rendered = Rendered(state: Noise, image: map<(int, int), Shade>)

  // ---------------------------------------------------------------------
  // The first pass

  /** One sample through the first pass's two independent tests. */
  function Visit(lo: real, hi: real, v: real): (b: (real, real))
    ensures b.0 <= lo && b.0 <= v && b.1 >= hi && b.1 >= v
    ensures (b.0 == lo || b.0 == v) && (b.1 == hi || b.1 == v)
  {
    (if v < lo then v else lo, if v > hi then v else hi)
  }

  /** The bounds after rows y .. height-1 of column x, starting from
      (lo, hi). */
  function ColumnBounds(sample: Sampler, t: int, x: int, y: int, height: int, lo: real, hi: real)
    : (real, real)
    decreases height - y
  {
    if y >= height then (lo, hi)
    else
      var v := Visit(lo, hi, sample(x, y, t));
      ColumnBounds(sample, t, x, y + 1, height, v.0, v.1)
  }

  /** The bounds after columns x .. width-1, each scanned top to bottom. */
  function GridBounds(sample: Sampler, t: int, x: int, width: int, height: int, lo: real, hi: real)
    : (real, real)
    decreases width - x
  {
    if x >= width then (lo, hi)
    else
      var c := ColumnBounds(sample, t, x, 0, height, lo, hi);
      GridBounds(sample, t, x + 1, width, height, c.0, c.1)
  }

  /** Scanning a column lowers lo to its least sample and raises hi to its
      greatest: both bounds cover every sample, and each is its start value
      or one of the samples. */
  lemma {:induction false} ColumnBoundsExtremal(sample: Sampler, t: int, x: int, y: int, height: int, lo: real, hi: real)
    ensures
      var b := ColumnBounds(sample, t, x, y, height, lo, hi);
      b.0 <= lo && b.1 >= hi
      && (forall j :: y <= j < height ==> b.0 <= sample(x, j, t) <= b.1)
      && (b.0 == lo || exists j :: y <= j < height && b.0 == sample(x, j, t))
      && (b.1 == hi || exists j :: y <= j < height && b.1 == sample(x, j, t))
    decreases height - y
  {
    if y < height {
      var v := Visit(lo, hi, sample(x, y, t));
      ColumnBoundsExtremal(sample, t, x, y + 1, height, v.0, v.1);
    }
  }

  /** The same over the grid: after the first pass min is the least of the
      start value and every sample, max the greatest. */
  lemma {:induction false} GridBoundsExtremal(sample: Sampler, t: int, x: int, width: int, height: int, lo: real, hi: real)
    ensures
      var b := GridBounds(sample, t, x, width, height, lo, hi);
      b.0 <= lo && b.1 >= hi
      && (forall i, j :: x <= i < width && 0 <= j < height ==> b.0 <= sample(i, j, t) <= b.1)
      && (b.0 == lo || exists i, j :: x <= i < width && 0 <= j < height && b.0 == sample(i, j, t))
      && (b.1 == hi || exists i, j :: x <= i < width && 0 <= j < height && b.1 == sample(i, j, t))
    decreases width - x
  {
    if x < width {
      var c := ColumnBounds(sample, t, x, 0, height, lo, hi);
      ColumnBoundsExtremal(sample, t, x, 0, height, lo, hi);
      GridBoundsExtremal(sample, t, x + 1, width, height, c.0, c.1);
    }
  }

  /** The inner loop of the first pass, over column x. */
  method ScanColumn(sample: Sampler, t: int, x: int, height: int, lo: real, hi: real)
    returns (column: seq<real>, lo': real, hi': real)
    requires height >= 0
    ensures |column| == height && forall y :: 0 <= y < height ==> column[y] == sample(x, y, t)
    ensures (lo', hi') == ColumnBounds(sample, t, x, 0, height, lo, hi)
  {
    column, lo', hi' := [], lo, hi;
    var y := 0;
    while y < height
      invariant 0 <= y <= height && |column| == y
      invariant forall j :: 0 <= j < y ==> column[j] == sample(x, j, t)
      invariant ColumnBounds(sample, t, x, y, height, lo', hi') == ColumnBounds(sample, t, x, 0, height, lo, hi)
    {
      var value := sample(x, y, t);
      if value > hi' {
        hi' := value;
      }
      if value < lo' {
        lo' := value;
      }
      column := column + [value];
      y := y + 1;
    }
  }

  /** The first pass of generateImage: pixels[x][y] = sample(x, y, t), with
      min and max updated after every sample, columns outermost. */
  method ScanSamples(sample: Sampler, t: int, width: int, height: int, lo: real, hi: real)
    returns (pixels: seq<seq<real>>, lo': real, hi': real)
    requires width >= 0 && height >= 0
    ensures |pixels| == width && forall x :: 0 <= x < width ==> |pixels[x]| == height
    ensures forall x, y :: 0 <= x < width && 0 <= y < height ==> pixels[x][y] == sample(x, y, t)
    ensures (lo', hi') == GridBounds(sample, t, 0, width, height, lo, hi)
    ensures lo' <= lo && hi' >= hi
    ensures forall x, y :: 0 <= x < width && 0 <= y < height ==> lo' <= sample(x, y, t) <= hi'
  {
    pixels, lo', hi' := [], lo, hi;
    var x := 0;
    while x < width
      invariant 0 <= x <= width && |pixels| == x
      invariant forall i :: 0 <= i < x ==> |pixels[i]| == height
      invariant forall i, j :: 0 <= i < x && 0 <= j < height ==> pixels[i][j] == sample(i, j, t)
      invariant GridBounds(sample, t, x, width, height, lo', hi') == GridBounds(sample, t, 0, width, height, lo, hi)
    {
      var column;
      column, lo', hi' := ScanColumn(sample, t, x, height, lo', hi');
      pixels := pixels + [column];
      x := x + 1;
    }
    GridBoundsExtremal(sample, t, 0, width, height, lo, hi);
  }

  // ---------------------------------------------------------------------
  // The second pass

  /** Color.gray((v - min) / range). A level outside [0, 1], infinities
      included, makes the colour constructor throw; 0 / 0 gives NaN, which
      it lets through. */
  function ShadeOf(v: real, min: real, range: real): (r: Result<Shade>)
    ensures r.Success? && r.value.Gray? ==> 0.0 <= r.value.level <= 1.0
  {
    if range == 0.0 then
      (if v == min then Success(NotANumber) else Failure(IllegalArgument("red")))
    else
      var g := (v - min) / range;
      if 0.0 <= g <= 1.0 then Success(Gray(g)) else Failure(IllegalArgument("red"))
  }

  /** A sample within the bounds never makes Color.gray throw: it gets a
      gray level in [0, 1] when the bounds differ, NaN when they coincide;
      the bounds themselves are black and white. */
  lemma ShadeWithinBounds(v: real, min: real, max: real)
    requires min <= v <= max
    ensures ShadeOf(v, min, max - min).Success?
    ensures max > min ==> ShadeOf(v, min, max - min).value.Gray?
    ensures max == min ==> ShadeOf(v, min, max - min).value == NotANumber
    ensures max > min && v == min ==> ShadeOf(v, min, max - min).value == Gray(0.0)
    ensures max > min && v == max ==> ShadeOf(v, min, max - min).value == Gray(1.0)
  {
    if max > min {
      DivideWithin(v - min, max - min);
    }
  }

  /** A quotient of a non-negative number by a larger one lies in [0, 1]. */
  lemma DivideWithin(a: real, r: real)
    requires 0.0 <= a <= r && r > 0.0
    ensures 0.0 <= a / r <= 1.0
    ensures a == r ==> a / r == 1.0
    ensures a == 0.0 ==> a / r == 0.0
  {
    var g := a / r;
    assert g * r == a;
    if g > 1.0 {
      MulMonotone(g, 1.0, r);
    }
  }

  lemma MulMonotone(x: real, y: real, r: real)
    requires x > y && r > 0.0
    ensures x * r > y * r
  {
  }

  /** The second pass: every pixel written with its shade, or the exception
      of the first pixel whose shade throws. */
  function Shades(pixels: seq<seq<real>>, width: int, height: int, min: real, max: real)
    : (r: Result<map<(int, int), Shade>>)
    requires |pixels| == width && forall x :: 0 <= x < width ==> |pixels[x]| == height
    ensures r.Success? <==>
      forall x, y :: 0 <= x < width && 0 <= y < height ==> ShadeOf(pixels[x][y], min, max - min).Success?
    ensures r.Success? ==>
      forall x, y :: 0 <= x < width && 0 <= y < height ==>
        (x, y) in r.value && ShadeOf(pixels[x][y], min, max - min) == Success(r.value[(x, y)])
    ensures r.Success? ==> forall k :: k in r.value ==> 0 <= k.0 < width && 0 <= k.1 < height
  {
    if forall x, y :: 0 <= x < width && 0 <= y < height ==> ShadeOf(pixels[x][y], min, max - min).Success?
    then Success(map x, y | 0 <= x < width && 0 <= y < height :: (x, y) := ShadeOf(pixels[x][y], min, max - min).value)
    else Failure(IllegalArgument("red"))
  }

  /** The shade Color.gray gives a value within [min, max]: NaN when the
      bounds coincide, (v - min) / (max - min) otherwise. */
  function Shading(v: real, min: real, max: real): Shade {
    if max == min then NotANumber else Gray((v - min) / (max - min))
  }

  /** The image of a frame: every pixel of the grid shaded from its sample
      at time t against the bounds. */
  function FrameImage(sample: Sampler, t: int, width: int, height: int, min: real, max: real)
    : map<(int, int), Shade>
  {
    map x, y | 0 <= x < width && 0 <= y < height :: (x, y) := Shading(sample(x, y, t), min, max)
  }

  /** Within the bounds, Color.gray does not throw and gives Shading. */
  lemma ShadingIsShadeOf(v: real, min: real, max: real)
    requires min <= v <= max
    ensures ShadeOf(v, min, max - min) == Success(Shading(v, min, max))
  {
    ShadeWithinBounds(v, min, max);
  }

  /** When every pixel holds its sample and lies within the bounds, the
      second pass never throws and writes the frame image. */
  lemma ShadesWithinBounds(pixels: seq<seq<real>>, sample: Sampler, t: int, width: int, height: int, min: real, max: real)
    requires |pixels| == width && forall x :: 0 <= x < width ==> |pixels[x]| == height
    requires forall x, y :: 0 <= x < width && 0 <= y < height ==> pixels[x][y] == sample(x, y, t)
    requires forall x, y :: 0 <= x < width && 0 <= y < height ==> min <= sample(x, y, t) <= max
    ensures Shades(pixels, width, height, min, max) == Success(FrameImage(sample, t, width, height, min, max))
  {
    forall x, y | 0 <= x < width && 0 <= y < height
      ensures ShadeOf(pixels[x][y], min, max - min) == Success(Shading(sample(x, y, t), min, max))
    {
      ShadingIsShadeOf(pixels[x][y], min, max);
    }
    var image := Shades(pixels, width, height, min, max).value;
    var frame := FrameImage(sample, t, width, height, min, max);
    forall k | k in image
      ensures k in frame && image[k] == frame[k]
    {
      assert ShadeOf(pixels[k.0][k.1], min, max - min) == Success(image[k]);
    }
    assert image.Keys == frame.Keys;
    assert image == frame;
  }

  /** What a frame shows when every sample lies within the bounds: each
      pixel of the grid, and nothing else, with the colour Color.gray gives
      its sample; gray levels in [0, 1] when the bounds differ, NaN when they
      coincide; a sample on the lower bound is black, one on the upper bound
      white. */
  lemma FrameImageShades(sample: Sampler, t: int, width: int, height: int, min: real, max: real)
    requires forall x, y :: 0 <= x < width && 0 <= y < height ==> min <= sample(x, y, t) <= max
    ensures
      var image := FrameImage(sample, t, width, height, min, max);
      (forall k :: k in image <==> 0 <= k.0 < width && 0 <= k.1 < height)
      && (forall x, y :: 0 <= x < width && 0 <= y < height ==>
            ShadeOf(sample(x, y, t), min, max - min) == Success(image[(x, y)]))
      && (forall k :: k in image ==>
            (max > min ==> image[k].Gray? && 0.0 <= image[k].level <= 1.0) && (max == min ==> image[k] == NotANumber))
      && (forall x, y :: 0 <= x < width && 0 <= y < height && max > min ==>
            (sample(x, y, t) == min ==> image[(x, y)] == Gray(0.0))
            && (sample(x, y, t) == max ==> image[(x, y)] == Gray(1.0)))
  {
    var image := FrameImage(sample, t, width, height, min, max);
    forall x, y | 0 <= x < width && 0 <= y < height
      ensures ShadeOf(sample(x, y, t), min, max - min) == Success(image[(x, y)])
      ensures max > min && sample(x, y, t) == min ==> image[(x, y)] == Gray(0.0)
      ensures max > min && sample(x, y, t) == max ==> image[(x, y)] == Gray(1.0)
    {
      ShadingIsShadeOf(sample(x, y, t), min, max);
      ShadeWithinBounds(sample(x, y, t), min, max);
    }
  }

  // ---------------------------------------------------------------------
  // Frames

  /** generateImage(width, height): rejects a non-positive size; otherwise
      scans the samples at the current time, stores the widened bounds and
      shades every pixel against them. */
  method GenerateImage(state: Noise, sample: Sampler, width: int, height: int) returns (r: Result<Rendered>)
    ensures r.Failure? <==> width <= 0 || height <= 0
    ensures r.Failure? ==> r.error == IllegalArgument("")
    ensures r.Success? ==>
      var s := r.value.state;
      s.currentTime == state.currentTime
      && (s.min, s.max) == GridBounds(sample, state.currentTime, 0, width, height, state.min, state.max)
      && s.min <= state.min && s.max >= state.max
    ensures r.Success? ==>
      forall x, y :: 0 <= x < width && 0 <= y < height ==>
        r.value.state.min <= sample(x, y, state.currentTime) <= r.value.state.max
    ensures r.Success? ==>
      r.value.image == FrameImage(sample, state.currentTime, width, height, r.value.state.min, r.value.state.max)
  {
    if width <= 0 || height <= 0 {
      return Failure(IllegalArgument(""));
    }
    var t := state.currentTime;
    var pixels, min, max := ScanSamples(sample, t, width, height, state.min, state.max);
    ShadesWithinBounds(pixels, sample, t, width, height, min, max);
    var image := Shades(pixels, width, height, min, max).value;
    r := Success(Rendered(Noise(min, max, t), image));
  }

  /** The side of the square image each frame renders. */
  const FrameSize: int := 400

  /** One frame of the render loop while the tab is selected: the time
      advances by one, then a 400 x 400 image is generated at the new time.
      The stored min never increases and the stored max never decreases. */
  method NextFrame(state: Noise, sample: Sampler) returns (state': Noise, image: map<(int, int), Shade>)
    ensures state'.currentTime == state.currentTime + 1
    ensures state'.min <= state.min && state'.max >= state.max
    ensures (state'.min, state'.max) == GridBounds(sample, state'.currentTime, 0, FrameSize, FrameSize, state.min, state.max)
    ensures forall x, y :: 0 <= x < FrameSize && 0 <= y < FrameSize ==>
      state'.min <= sample(x, y, state'.currentTime) <= state'.max
    ensures image == FrameImage(sample, state'.currentTime, FrameSize, FrameSize, state'.min, state'.max)
  {
    var advanced := state.(currentTime := state.currentTime + 1);
    var r := GenerateImage(advanced, sample, FrameSize, FrameSize);
    state', image := r.value.state, r.value.image;
  }

  // ---------------------------------------------------------------------
  // The initial max

  /** As written, max starts at Double.MIN_VALUE, a tiny positive number,
      not the lowest double. When every sample of the first frame is
      negative the stored max stays at that start value, which no sample
      has, so no pixel of the frame is white. */
  lemma AsWrittenMaxNotAttained(sample: Sampler, t: int, width: int, height: int)
    requires width > 0 && height > 0
    requires forall x, y :: 0 <= x < width && 0 <= y < height ==> sample(x, y, t) < 0.0
    ensures
      var b := GridBounds(sample, t, 0, width, height, InitialAsWritten.min, InitialAsWritten.max);
      b.1 == DoubleMinValue
      && forall x, y :: 0 <= x < width && 0 <= y < height ==>
        sample(x, y, t) != b.1 && ShadeOf(sample(x, y, t), b.0, b.1 - b.0) != Success(Gray(1.0))
  {
    var b := GridBounds(sample, t, 0, width, height, InitialAsWritten.min, InitialAsWritten.max);
    GridBoundsExtremal(sample, t, 0, width, height, InitialAsWritten.min, InitialAsWritten.max);
    forall x, y | 0 <= x < width && 0 <= y < height
      ensures ShadeOf(sample(x, y, t), b.0, b.1 - b.0) != Success(Gray(1.0))
    {
      var v := sample(x, y, t);
      assert b.0 <= v < b.1;
      if b.1 - b.0 != 0.0 {
        assert (v - b.0) / (b.1 - b.0) < 1.0 by {
          assert v - b.0 < b.1 - b.0;
        }
      }
    }
  }

  /** With max starting at the lowest double, the first frame's bounds are
      samples of the frame: some pixel is the darkest and some the brightest,
      and when they differ these pixels are black and white. */
  lemma FirstFrameSpansFullRange(sample: Sampler, t: int, width: int, height: int)
    requires width > 0 && height > 0
    requires forall x, y :: 0 <= x < width && 0 <= y < height ==> -DoubleMax <= sample(x, y, t) <= DoubleMax
    ensures
      var b := GridBounds(sample, t, 0, width, height, Initial.min, Initial.max);
      (exists x, y :: 0 <= x < width && 0 <= y < height && sample(x, y, t) == b.0)
      && (exists x, y :: 0 <= x < width && 0 <= y < height && sample(x, y, t) == b.1)
      && (b.1 > b.0 ==>
            exists x, y :: 0 <= x < width && 0 <= y < height && ShadeOf(sample(x, y, t), b.0, b.1 - b.0) == Success(Gray(1.0)))
  {
    var b := GridBounds(sample, t, 0, width, height, Initial.min, Initial.max);
    GridBoundsExtremal(sample, t, 0, width, height, Initial.min, Initial.max);
    var v := sample(0, 0, t);
    if b.0 == Initial.min {
      assert v == b.0;
    }
    if b.1 == Initial.max {
      assert v == b.1;
    }
    var x, y :| 0 <= x < width && 0 <= y < height && sample(x, y, t) == b.1;
    ShadeWithinBounds(sample(x, y, t), b.0, b.1);
  }
}
