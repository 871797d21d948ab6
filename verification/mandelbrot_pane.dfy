/** The arithmetic and state of MandelbrotSetPane: the 700 x 700 viewport
    centred on (centerX, centerY), the scroll zoom, the click recentre, the
    three colour modes and the render that fills the view. The widgets are
    reduced to the values they hold; a handler returns the new pane state
    and the number of generate() calls its property listeners trigger. */
module MandelbrotPane {
  import opened Wrappers
  import opened Arith
  import opened Colors
  import opened EscapeTime
  import opened Mandelbrot

  /** The view is ViewSize x ViewSize pixels; its centre pixel is HalfView. */
  const ViewSize: int := 700
  const HalfView: real := 350.0

  /** Upper bound of the scale field, and of scrolling out. */
  const MaxScale: real := 0.1

  /** One scroll step multiplies or divides the scale by this factor. */
  const ZoomFactor: real := 0.9

  /** The range of the threads field. */
  const MaxThreads: int := 4

  /** A rendered image: pixel coordinates to colours. */
  type Image = map<(int, int), Color>

  /** The values of the pane's fields, the colour mode with the text of its
      button, and the zooming flag. */
  datatype Pane = Pane(
    centerX: real, centerY: real, scale: real, iterations: int, threads: int,
    colorMode: int, modeText: string, zooming: bool)

  /** What a handler leaves behind: the new state and how many times it
      causes generate() to run. */
  datatype Reaction = Reaction(pane: Pane, generations: nat)

  // ---------------------------------------------------------------------
  // Colour modes

  /** The button text naming each colour mode. */
  function ModeName(mode: int): string
    requires 0 <= mode <= 2
  {
    if mode == 0 then "Linéaire" else if mode == 1 then "Racine" else "Quadratique"
  }

  /** The colour-mode button: the switch moves mode 0 to 1, 1 to 2 and 2 to
      0, setting the button text to the new mode's name; any other value
      falls through the switch. generate() runs in every case. */
  function PressColorMode(p: Pane): (r: Reaction)
    ensures 0 <= p.colorMode <= 2 ==> r.pane.colorMode == (p.colorMode + 1) % 3
    ensures 0 <= p.colorMode <= 2 ==> r.pane.modeText == ModeName(r.pane.colorMode)
    ensures !(0 <= p.colorMode <= 2) ==> r.pane == p
    ensures r.pane == p.(colorMode := r.pane.colorMode, modeText := r.pane.modeText)
    ensures r.generations == 1
  {
    match p.colorMode
    case 0 => Reaction(p.(colorMode := 1, modeText := "Racine"), 1)
    case 1 => Reaction(p.(colorMode := 2, modeText := "Quadratique"), 1)
    case 2 => Reaction(p.(colorMode := 0, modeText := "Linéaire"), 1)
    case _ => Reaction(p, 1)
  }

  /** Three presses bring the pane back to the mode and text it started
      with, whatever the mode was. */
  lemma ModeCycle(p: Pane)
    requires 0 <= p.colorMode <= 2 ==> p.modeText == ModeName(p.colorMode)
    ensures PressColorMode(PressColorMode(PressColorMode(p).pane).pane).pane == p
  {
  }

  /** The red level mode 1 (square root) or mode 2 (square) gives entry i
      of a table of length max. */
  function Level(mode: int, sqrt: real -> real, i: int, max: int): real
    requires max > 0
  {
    var v := i as real / max as real;
    if mode == 1 then sqrt(v) else v * v
  }

  /** The colour table a set ends up with in each mode: modes 1 and 2
      rebuild it from their level, keeping black as the last entry; any
      other mode keeps the constructor's linear table. */
  function ModeColors(mode: int, sqrt: real -> real, max: int): (t: seq<Color>)
    requires max > 0
    ensures |t| == max
    ensures t[max - 1] == Black
  {
    if mode == 1 || mode == 2
    then seq(max, i requires 0 <= i < max => Red(Level(mode, sqrt, i, max)))[max - 1 := Black]
    else DefaultColors(max)
  }

  /** The custom colour mapping of generate(): the loop over the table of a
      freshly constructed engine, then black for the last entry. It builds
      exactly ModeColors. */
  method Recolor(colors: seq<Color>, mode: int, sqrt: real -> real) returns (t: seq<Color>)
    requires |colors| > 0
    ensures mode == 1 || mode == 2 ==> t == ModeColors(mode, sqrt, |colors|)
    ensures mode != 1 && mode != 2 ==> t == colors
  {
    t := colors;
    if mode == 1 || mode == 2 {
      var max := |colors|;
      var i := 0;
      while i < max
        invariant 0 <= i <= max && |t| == max
        invariant forall j :: 0 <= j < i ==> t[j] == Red(Level(mode, sqrt, j, max))
      {
        t := t[i := Red(Level(mode, sqrt, i, max))];
        i := i + 1;
      }
      t := t[max - 1 := Black];
    }
  }

  /** Below the last entry, mode 1 is red sqrt(i / max) and mode 2 is red
      (i / max)^2. */
  lemma ModeColorsEntries(mode: int, sqrt: real -> real, max: int, i: int)
    requires max > 0 && 0 <= i < max - 1
    ensures mode == 1 ==> ModeColors(mode, sqrt, max)[i] == Red(sqrt(i as real / max as real))
    ensures mode == 2 ==> ModeColors(mode, sqrt, max)[i] == Red((i as real / max as real) * (i as real / max as real))
    ensures mode != 1 && mode != 2 ==> ModeColors(mode, sqrt, max)[i] == Red(i as real / max as real)
  {
  }

  /** The quadratic table is a legal Color.color table, with red in [0, 1),
      and never brighter than the linear one. */
  lemma QuadraticColorsInRange(sqrt: real -> real, max: int)
    requires max > 0
    ensures forall i :: 0 <= i < max ==>
      var c := ModeColors(2, sqrt, max)[i];
      0.0 <= c.red < 1.0 && c.green == 0.0 && c.blue == 0.0 && c.red <= DefaultColors(max)[i].red
  {
    var t := ModeColors(2, sqrt, max);
    var d := DefaultColors(max);
    forall i | 0 <= i < max
      ensures 0.0 <= t[i].red < 1.0 && t[i].green == 0.0 && t[i].blue == 0.0 && t[i].red <= d[i].red
    {
      if i < max - 1 {
        var v := i as real / max as real;
        assert 0.0 <= v < 1.0;
        assert v * v <= v * 1.0;
        assert t[i].red == v * v;
      }
    }
  }

  /** With a square root that maps [0, 1) into itself, the root table is a
      legal Color.color table as well. */
  lemma RootColorsInRange(sqrt: real -> real, max: int)
    requires max > 0
    requires forall v :: 0.0 <= v < 1.0 ==> 0.0 <= sqrt(v) < 1.0
    ensures forall i :: 0 <= i < max ==>
      var c := ModeColors(1, sqrt, max)[i];
      0.0 <= c.red < 1.0 && c.green == 0.0 && c.blue == 0.0
  {
    var t := ModeColors(1, sqrt, max);
    forall i | 0 <= i < max
      ensures 0.0 <= t[i].red < 1.0 && t[i].green == 0.0 && t[i].blue == 0.0
    {
      if i < max - 1 {
        var v := i as real / max as real;
        assert 0.0 <= v < 1.0;
        assert t[i].red == sqrt(v);
      }
    }
  }

  // ---------------------------------------------------------------------
  // Viewport

  /** The plane coordinate of pixel 0 along an axis: center - 350 * scale. */
  function Origin(center: real, scale: real): real {
    center - HalfView * scale
  }

  /** The scroll handler's new scale: 0.9 times the scale when the wheel
      turns up, otherwise the scale divided by 0.9 but never above 0.1. */
  function Zoom(scale: real, deltaY: real): (s': real)
    ensures deltaY <= 0.0 ==> s' <= MaxScale
    ensures scale > 0.0 ==> s' > 0.0
    ensures deltaY > 0.0 && scale > 0.0 ==> s' < scale
    ensures deltaY <= 0.0 && 0.0 < scale < MaxScale ==> s' > scale
  {
    if deltaY > 0.0 then scale * ZoomFactor else MinReal(scale / ZoomFactor, MaxScale)
  }

  /** The scale field stays within [0, 0.1] under scrolling. */
  lemma ZoomKeepsScaleInRange(scale: real, deltaY: real)
    requires 0.0 <= scale <= MaxScale
    ensures 0.0 <= Zoom(scale, deltaY) <= MaxScale
  {
  }

  /** Scrolling in then out restores the scale; so does scrolling out then
      in, as long as the way out did not hit the 0.1 cap. */
  lemma ZoomRoundTrip(scale: real, up: real, down: real)
    requires 0.0 <= scale <= MaxScale && up > 0.0 && down <= 0.0
    ensures Zoom(Zoom(scale, up), down) == scale
    ensures scale / ZoomFactor <= MaxScale ==> Zoom(Zoom(scale, down), up) == scale
  {
  }

  /** The scroll handler. Its listener raises the zooming flag and calls
      generate() only when the value actually changes. */
  function Scroll(p: Pane, deltaY: real): (r: Reaction)
    ensures r.pane.scale == Zoom(p.scale, deltaY)
    ensures r.pane == p.(scale := r.pane.scale, zooming := r.pane.zooming)
    ensures r.pane.zooming <==> p.zooming || r.pane.scale != p.scale
    ensures r.generations == if r.pane.scale != p.scale then 1 else 0
  {
    var s := Zoom(p.scale, deltaY);
    if s != p.scale then Reaction(p.(scale := s, zooming := true), 1) else Reaction(p, 0)
  }

  /** One coordinate of the click handler: the plane coordinate under the
      clicked position. */
  function Recentre(center: real, scale: real, click: real): real {
    center + (click - HalfView) * scale
  }

  /** The click handler: ignored while zooming; otherwise the centre moves
      to the clicked point, each coordinate's listener calling generate()
      when it changes. */
  function Click(p: Pane, clickX: real, clickY: real): (r: Reaction)
    ensures p.zooming ==> r == Reaction(p, 0)
    ensures !p.zooming ==> r.pane == p.(centerX := Recentre(p.centerX, p.scale, clickX),
                                        centerY := Recentre(p.centerY, p.scale, clickY))
    ensures !p.zooming ==>
      r.generations == (if r.pane.centerX != p.centerX then 1 else 0) + (if r.pane.centerY != p.centerY then 1 else 0)
  {
    if p.zooming then Reaction(p, 0)
    else
      var x := Recentre(p.centerX, p.scale, clickX);
      var y := Recentre(p.centerY, p.scale, clickY);
      Reaction(p.(centerX := x, centerY := y), (if x != p.centerX then 1 else 0) + (if y != p.centerY then 1 else 0))
  }

  /** Clicking the centre pixel moves nothing and starts no render. */
  lemma ClickCentreIsNoOp(p: Pane)
    ensures Click(p, HalfView, HalfView) == Reaction(p, 0)
  {
  }

  // ---------------------------------------------------------------------
  // generate()

  /** The executor generate() hands to the constructor: null for one thread. */
  function ExecutorFor(threads: int): (e: Executor)
    ensures e == NullExecutor <==> threads == 1
  {
    if threads == 1 then NullExecutor else Pool
  }

  /** The set generate() builds with the given executor: blocks = threads,
      origin center - 350 * scale on both axes, both scales equal to the
      scale field, then the colour mode applied to the table. */
  function BuildSet(p: Pane, executor: Executor, sqrt: real -> real): (r: Result<MandelbrotSet>)
    ensures r.Success? <==> p.threads > 0 && executor.Pool? && p.scale != 0.0 && p.iterations > 0
    ensures r.Success? ==>
      Valid(r.value) && r.value.maxIterations == p.iterations
      && r.value.colors == ModeColors(p.colorMode, sqrt, p.iterations)
  {
    var r := New(executor, p.threads, Origin(p.centerX, p.scale), Origin(p.centerY, p.scale), p.scale, p.scale, p.iterations);
    if r.Failure? then r
    else Success(r.value.(colors := ModeColors(p.colorMode, sqrt, r.value.maxIterations)))
  }

  /** generate() as written: no set when the scale is 0, and a null
      executor when there is a single thread. */
  function ConfigureAsWritten(p: Pane, sqrt: real -> real): (r: Option<Result<MandelbrotSet>>)
    ensures r.None? <==> p.scale == 0.0
  {
    if p.scale == 0.0 then None else Some(BuildSet(p, ExecutorFor(p.threads), sqrt))
  }

  /** generate() with the executor always passed, as RefreshCorrected
      builds its set. */
  function Configure(p: Pane, sqrt: real -> real): (r: Option<Result<MandelbrotSet>>)
    ensures r.None? <==> p.scale == 0.0
  {
    if p.scale == 0.0 then None else Some(BuildSet(p, Pool, sqrt))
  }

  /** As written, every render of a single-thread pane fails: the
      constructor rejects the null executor. */
  lemma SingleThreadRejected(p: Pane, sqrt: real -> real)
    requires p.scale != 0.0 && p.threads == 1
    ensures ConfigureAsWritten(p, sqrt) == Some(Failure(IllegalArgument("executor")))
    ensures p.iterations > 0 ==> Configure(p, sqrt).value.Success?
  {
  }

  /** With two threads or more the two versions build the same set. */
  lemma ConfigureAgreesAboveOneThread(p: Pane, sqrt: real -> real)
    requires p.threads >= 2
    ensures ConfigureAsWritten(p, sqrt) == Configure(p, sqrt)
  {
  }

  /** For every pane whose fields hold legal values the set is built, with
      one block per thread and the pane's budget and colour mode, and its
      pixel 350 on either axis lands exactly on the centre. */
  lemma ConfigureSucceeds(p: Pane, sqrt: real -> real)
    requires p.scale != 0.0 && p.threads >= 1 && p.iterations >= 1
    ensures Configure(p, sqrt).Some? && Configure(p, sqrt).value.Success?
    ensures
      var engine := Configure(p, sqrt).value.value;
      Valid(engine) && engine.blocks == p.threads && engine.maxIterations == p.iterations
      && engine.xScale == p.scale && engine.yScale == p.scale
      && engine.colors == ModeColors(p.colorMode, sqrt, p.iterations)
      && PointX(engine, 350) == p.centerX && PointY(engine, 350) == p.centerY
  {
  }

  /** The plane point a click on pixel (px, py) makes the new centre is the
      point the set rendered under that pixel. */
  lemma ClickLandsOnPixelPoint(p: Pane, sqrt: real -> real, px: int, py: int)
    requires p.scale != 0.0 && p.threads >= 1 && p.iterations >= 1 && !p.zooming
    ensures
      var engine := Configure(p, sqrt).value.value;
      Click(p, px as real, py as real).pane.centerX == PointX(engine, px)
      && Click(p, px as real, py as real).pane.centerY == PointY(engine, py)
  {
    ConfigureSucceeds(p, sqrt);
  }

  /** A bound on the raster arithmetic of a 700 x 700 render with at most
      four blocks: it stays within Java ints. */
  lemma ViewFitsInInt(blocks: int)
    requires 1 <= blocks <= MaxThreads
    ensures ViewSize * ViewSize <= IntMax
    ensures BlockSize(ViewSize * ViewSize, blocks) * blocks <= IntMax
  {
    var b := BlockSize(ViewSize * ViewSize, blocks);
    assert blocks * (b - 1) == blocks * b - blocks;
  }

  /** The render task: set.generate(700, 700, task.expect(700 * 700)); the
      image is shown and the zooming flag cleared only when the task was not
      cancelled in the meantime. A task that is not cancelled at the end was
      never cancelled: cancellation is not undone. */
  method Render(p: Pane, view: Option<Image>, engine: MandelbrotSet,
                dispatchCancelled: int -> bool, pixelCancelled: int -> bool, cancelledAtEnd: bool)
    returns (p': Pane, view': Option<Image>, expected: int, increments: int)
    requires Valid(engine) && engine.blocks <= MaxThreads
    requires !cancelledAtEnd ==>
      DispatchClear(dispatchCancelled, engine.blocks) && PixelsClear(pixelCancelled, ViewSize * ViewSize)
    ensures expected == ViewSize * ViewSize
    ensures cancelledAtEnd ==> p' == p && view' == view
    ensures !cancelledAtEnd ==> p' == p.(zooming := false)
    ensures !cancelledAtEnd ==> view' == Some(Raster(engine, ViewSize, ViewSize)) && increments == expected
  {
    expected := ViewSize * ViewSize;
    ViewFitsInInt(engine.blocks);
    var r;
    r, increments := Mandelbrot.Generate(engine, ViewSize, ViewSize, dispatchCancelled, pixelCancelled);
    p', view' := p, view;
    if !cancelledAtEnd {
      p' := p.(zooming := false);
      view' := Some(r.value);
    }
  }

  /** The tail of generate() once the set is configured: nothing without a
      set, the constructor's exception when it threw, otherwise the render
      task. */
  method Launch(p: Pane, view: Option<Image>, c: Option<Result<MandelbrotSet>>,
                dispatchCancelled: int -> bool, pixelCancelled: int -> bool, cancelledAtEnd: bool)
    returns (p': Pane, view': Option<Image>, thrown: Option<Error>)
    requires c.Some? && c.value.Success? ==> Valid(c.value.value) && c.value.value.blocks <= MaxThreads
    requires c.Some? && c.value.Success? && !cancelledAtEnd ==>
      DispatchClear(dispatchCancelled, c.value.value.blocks) && PixelsClear(pixelCancelled, ViewSize * ViewSize)
    ensures c.None? ==> p' == p && view' == view && thrown == None
    ensures c.Some? && c.value.Failure? ==> p' == p && view' == view && thrown == Some(c.value.error)
    ensures c.Some? && c.value.Success? && cancelledAtEnd ==> p' == p && view' == view && thrown == None
    ensures c.Some? && c.value.Success? && !cancelledAtEnd ==>
      thrown == None && p' == p.(zooming := false) && view' == Some(Raster(c.value.value, ViewSize, ViewSize))
  {
    p', view', thrown := p, view, None;
    if c.None? {
      return;
    }
    if c.value.Failure? {
      thrown := Some(c.value.error);
      return;
    }
    var expected, increments;
    p', view', expected, increments := Render(p, view, c.value.value, dispatchCancelled, pixelCancelled, cancelledAtEnd);
  }

  /** The pixel at the centre of the view shows the colour of the pane's
      centre point. */
  lemma CentrePixel(p: Pane, sqrt: real -> real)
    requires p.scale != 0.0 && p.threads >= 1 && p.iterations >= 1
    ensures
      var engine := Configure(p, sqrt).value.value;
      Raster(engine, ViewSize, ViewSize)[(350, 350)]
      == engine.colors[Iterations(p.centerX, p.centerY, p.iterations) - 1]
  {
    ConfigureSucceeds(p, sqrt);
  }

  /** generate() as written: nothing when the scale is 0; the constructor's
      exception escapes when the fields are out of range, and with a single
      thread, whose null executor it rejects; otherwise the render of the
      set for the current fields. */
  method Refresh(p: Pane, view: Option<Image>, sqrt: real -> real,
                 dispatchCancelled: int -> bool, pixelCancelled: int -> bool, cancelledAtEnd: bool)
    returns (p': Pane, view': Option<Image>, thrown: Option<Error>)
    requires 1 <= p.threads <= MaxThreads
    requires !cancelledAtEnd ==>
      DispatchClear(dispatchCancelled, p.threads) && PixelsClear(pixelCancelled, ViewSize * ViewSize)
    ensures p.scale == 0.0 ==> p' == p && view' == view && thrown == None
    ensures p.scale != 0.0 && p.threads == 1 ==>
      p' == p && view' == view && thrown == Some(IllegalArgument("executor"))
    ensures p.scale != 0.0 && p.threads >= 2 && p.iterations <= 0 ==>
      p' == p && view' == view && thrown == Some(IllegalArgument("maxIterations"))
    ensures p.scale != 0.0 && p.threads >= 2 && p.iterations >= 1 && cancelledAtEnd ==>
      p' == p && view' == view && thrown == None
    ensures p.scale != 0.0 && p.threads >= 2 && p.iterations >= 1 && !cancelledAtEnd ==>
      thrown == None && p' == p.(zooming := false)
      && view' == Some(Raster(ConfigureAsWritten(p, sqrt).value.value, ViewSize, ViewSize))
    ensures p.scale != 0.0 && p.threads >= 2 && p.iterations >= 1 && !cancelledAtEnd ==>
      view'.value[(350, 350)] == ConfigureAsWritten(p, sqrt).value.value.colors[
        Iterations(p.centerX, p.centerY, p.iterations) - 1]
  {
    var c := ConfigureAsWritten(p, sqrt);
    if p.scale != 0.0 && p.threads >= 2 && p.iterations >= 1 {
      ConfigureAgreesAboveOneThread(p, sqrt);
      ConfigureSucceeds(p, sqrt);
      CentrePixel(p, sqrt);
    }
    p', view', thrown := Launch(p, view, c, dispatchCancelled, pixelCancelled, cancelledAtEnd);
  }

  /** generate() with the executor always passed: a single thread renders
      like any other count. */
  method RefreshCorrected(p: Pane, view: Option<Image>, sqrt: real -> real,
                          dispatchCancelled: int -> bool, pixelCancelled: int -> bool, cancelledAtEnd: bool)
    returns (p': Pane, view': Option<Image>, thrown: Option<Error>)
    requires 1 <= p.threads <= MaxThreads
    requires !cancelledAtEnd ==>
      DispatchClear(dispatchCancelled, p.threads) && PixelsClear(pixelCancelled, ViewSize * ViewSize)
    ensures p.scale == 0.0 ==> p' == p && view' == view && thrown == None
    ensures p.scale != 0.0 && p.iterations <= 0 ==>
      p' == p && view' == view && thrown == Some(IllegalArgument("maxIterations"))
    ensures p.scale != 0.0 && p.iterations >= 1 && cancelledAtEnd ==>
      p' == p && view' == view && thrown == None
    ensures p.scale != 0.0 && p.iterations >= 1 && !cancelledAtEnd ==>
      thrown == None && p' == p.(zooming := false)
      && view' == Some(Raster(Configure(p, sqrt).value.value, ViewSize, ViewSize))
    ensures p.scale != 0.0 && p.iterations >= 1 && !cancelledAtEnd ==>
      view'.value[(350, 350)] == Configure(p, sqrt).value.value.colors[
        Iterations(p.centerX, p.centerY, p.iterations) - 1]
  {
    var c := Configure(p, sqrt);
    if p.scale != 0.0 && p.iterations >= 1 {
      ConfigureSucceeds(p, sqrt);
      CentrePixel(p, sqrt);
    }
    p', view', thrown := Launch(p, view, c, dispatchCancelled, pixelCancelled, cancelledAtEnd);
  }
}
