# Simplex fractal generators in Dafny

Simplex is a small JavaFX desktop application that draws four generated
pictures:

- the Mandelbrot set, rendered block by block on a thread pool;
- a Pythagoras tree and a Koch snowflake, drawn with a turtle (`PathHelper`);
- an animated Perlin-noise field, normalised to grey levels frame by frame.

This project models the computing core of these pictures and proves
properties of the model.

Modules:

- `EscapeTime`: the escape-time loop of `MandelbrotSet.getIterations`.
- `Mandelbrot`: the `MandelbrotSet` engine, covering:
  - constructor validation;
  - the default colour table;
  - the partition of the raster into blocks;
  - the pixel-index mapping;
  - the scan with its cancellation polls.
- `MandelbrotPane`: the reactions of `MandelbrotSetPane`, covering:
  - the colour-mode button and its colour tables;
  - the scroll zoom and the click re-centring;
  - the construction of the engine from the fields;
  - the rendering of the 700x700 view.
- `Turtle`: the turtle as a trace of commands (move, rotate, set stroke, set line width) with an execution semantics. The direction a heading points along is a parameter, so every fact holds whatever trigonometry the turtle uses.
- `Pythagoras`: the `PythagorasTree` constructor, `getColor`, `generate` and `_generate`, as turtle traces.
- `Koch`: `generateKochCurve` and `generateKochSnowflake` of `KochSnowflakePane`, as turtle traces.
- `PerlinPane`: the frame generation of `PerlinNoisePane`. It covers the running min/max scan over the samples, the normalisation to grey levels and the frame clock.
- `Wrappers`, `Arith`, `Colors`: shared support:
  - the `Result` and `Option` types and the exceptions as error values;
  - powers and minimum;
  - colours and paints.

Modelling choices:

- Java `double` values are modelled as `real`.
- `Math.PI` is its exact double value, 884279719003555 / 2^48.
- `Double.MAX_VALUE` and `Double.MIN_VALUE` are written out exactly.
- An exception is a `Failure` carrying the `IllegalArgumentException` message. The engine's `new WritableImage(w, h)` rejects non-positive sizes with `InvalidImageSize`.
- An image is a map from pixel coordinates to colours; it starts empty.
- The cancellation of the progress task becomes two oracles, both indexed, so every interleaving of a cancel with the scan is covered:
  - one polled before each block is dispatched;
  - one polled before each pixel is written.
- The Perlin noise library becomes a sampler parameter `(x, y, t) -> value`.
- `Math.sqrt` becomes a parameter `sqrt`.

The escape test is strict: `r2 + i2 < 4` at `MandelbrotSet.java:122`. So the point (-2, 0), whose first iterate has |z|^2 = 4, stops with count 1 (`EscapeTime.BoundaryPointsEscape`).

## Model

| member | source | states |
|---|---|---|
| EscapeTime.Iterations | src/main/java/net/smoofyuniverse/simplex/generator/MandelbrotSet.java:118-133 | the iteration count lies between 1 and maxIterations for a valid budget, and is 0 for a non-positive one |
| EscapeTime.GetIterations | src/main/java/net/smoofyuniverse/simplex/generator/MandelbrotSet.java:118-133 | the loop over r, i, r2, i2 and c returns the count of the escape-time recursion |
| EscapeTime.OriginNeverEscapes | src/main/java/net/smoofyuniverse/simplex/generator/MandelbrotSet.java:118-133 | the origin uses the whole budget: its count is maxIterations |
| EscapeTime.EscapesAtFirstStep | src/main/java/net/smoofyuniverse/simplex/generator/MandelbrotSet.java:122-130 | the count is 1 if and only if the budget is 1 or x^2 + y^2 >= 4 |
| EscapeTime.BoundaryPointsEscape | src/main/java/net/smoofyuniverse/simplex/generator/MandelbrotSet.java:122 | because the escape test is strict, (2, 0) and (-2, 0) get count 1 |
| EscapeTime.IterationsStable | src/main/java/net/smoofyuniverse/simplex/generator/MandelbrotSet.java:118-133 | a point that escapes within a budget escapes at the same step under any larger budget |
| Mandelbrot.New | src/main/java/net/smoofyuniverse/simplex/generator/MandelbrotSet.java:44-69 | succeeds if and only if blocks > 0, an executor is given, both scales are non-zero and maxIterations > 0; otherwise the failure names the first bad parameter in the source's order; on success the fields are stored and the table is the default one |
| Mandelbrot.DefaultColors | src/main/java/net/smoofyuniverse/simplex/generator/MandelbrotSet.java:63-68 | the table has maxIterations entries; entry i is red i/maxIterations, except the last, which is black |
| Mandelbrot.DefaultColorsInRange | src/main/java/net/smoofyuniverse/simplex/generator/MandelbrotSet.java:65-68 | every default colour has red in [0, 1) and no green or blue, so Color.color accepts each one |
| Mandelbrot.ColorIndex | src/main/java/net/smoofyuniverse/simplex/generator/MandelbrotSet.java:102 | getIterations(x, y) - 1 always indexes the colour table |
| Mandelbrot.PixelColor | src/main/java/net/smoofyuniverse/simplex/generator/MandelbrotSet.java:99-102 | pixel (pX, pY) gets colors[getIterations(minX + pX * xScale, minY + pY * yScale) - 1], an entry of the set's table; every raster and scan contract is stated in these colours |
| Mandelbrot.OriginPixelIsLastColor | src/main/java/net/smoofyuniverse/simplex/generator/MandelbrotSet.java:99-102 | a pixel whose point is the origin gets the last colour of the table, black with the default table |
| Mandelbrot.BlockSize | src/main/java/net/smoofyuniverse/simplex/generator/MandelbrotSet.java:79-80 | ceil(size / blocks): `blocks` blocks of this size cover the raster, and `blocks` blocks of a size one smaller do not |
| Mandelbrot.BlocksDisjoint | src/main/java/net/smoofyuniverse/simplex/generator/MandelbrotSet.java:86-93 | no pixel belongs to two blocks |
| Mandelbrot.PixelInItsBlock | src/main/java/net/smoofyuniverse/simplex/generator/MandelbrotSet.java:80-93 | every raster pixel p lies in block p / blockSize, which is one of the dispatched blocks |
| Mandelbrot.BlocksCover | src/main/java/net/smoofyuniverse/simplex/generator/MandelbrotSet.java:80-93 | a pixel index lies in some block if and only if it lies in [0, width * height) |
| Mandelbrot.BlockInsideRaster | src/main/java/net/smoofyuniverse/simplex/generator/MandelbrotSet.java:89-93 | the clamp of blockMax to size keeps every pixel a block visits inside the raster |
| Mandelbrot.PixelOfInBounds | src/main/java/net/smoofyuniverse/simplex/generator/MandelbrotSet.java:93-97 | pX = p % width and pY = p / width lie inside the image for every p < width * height |
| Mandelbrot.PixelIndexRoundTrip | src/main/java/net/smoofyuniverse/simplex/generator/MandelbrotSet.java:97 | pY * width + pX gives back p |
| Mandelbrot.IndexPixelRoundTrip | src/main/java/net/smoofyuniverse/simplex/generator/MandelbrotSet.java:97 | the pixel of index y * width + x is (x, y) |
| Mandelbrot.PixelOfInjective | src/main/java/net/smoofyuniverse/simplex/generator/MandelbrotSet.java:97 | two indices are never written to the same pixel |
| Mandelbrot.PaintedAll | src/main/java/net/smoofyuniverse/simplex/generator/MandelbrotSet.java:93-103 | with no pixel poll cancelled, the pixels of all indices form the full raster, each with its colour |
| Mandelbrot.WrittenIsPainted | src/main/java/net/smoofyuniverse/simplex/generator/MandelbrotSet.java:93-103 | writing indices 0 to n-1 in order, each one only when reached, gives exactly the pixels of those indices that are reached, each with its colour |
| Mandelbrot.CancelledBlockWritesNoMore | src/main/java/net/smoofyuniverse/simplex/generator/MandelbrotSet.java:93-95 | once a poll in a block sees cancellation, the rest of that block writes nothing |
| Mandelbrot.WritePixel | src/main/java/net/smoofyuniverse/simplex/generator/MandelbrotSet.java:97-103 | writing a reached pixel adds a fresh pixel to the image and increments the listener by exactly one |
| Mandelbrot.ScanRange | src/main/java/net/smoofyuniverse/simplex/generator/MandelbrotSet.java:93-104 | the pixel loop of one block writes the reached pixels of [blockMin, blockMax), and the increments equal the pixels written |
| Mandelbrot.ScanBlock | src/main/java/net/smoofyuniverse/simplex/generator/MandelbrotSet.java:86-108 | one dispatched block clamps blockMax to size and writes its reached pixels; with no cancellation it writes all of them |
| Mandelbrot.ScanOutcome | src/main/java/net/smoofyuniverse/simplex/generator/MandelbrotSet.java:77-116 | after the dispatched blocks run, the image is exactly the reached pixels they cover; when all blocks run with no cancellation, it is the full raster |
| Mandelbrot.Scan | src/main/java/net/smoofyuniverse/simplex/generator/MandelbrotSet.java:77-116 | blocks are dispatched until the first cancelled poll; the image holds exactly the reached pixels of the dispatched blocks, each with its escape-time colour; increments equal pixels written; with no cancellation the result is the full raster and width * height increments |
| Mandelbrot.Generate | src/main/java/net/smoofyuniverse/simplex/generator/MandelbrotSet.java:71-75 | fails if and only if the image size is not positive; otherwise every pixel written is inside the image with its colour, the increments equal the pixels written, and with no cancellation the image is the full raster |
| Mandelbrot.PixelOf | src/main/java/net/smoofyuniverse/simplex/generator/MandelbrotSet.java:97 | pixel index p is written at (p % width, p / width); its contract is given by PixelOfInBounds, PixelIndexRoundTrip, IndexPixelRoundTrip and PixelOfInjective |
| Mandelbrot.RasterIgnoresBlocks | src/main/java/net/smoofyuniverse/simplex/generator/MandelbrotSet.java:99-102 | a pixel's colour depends only on its own coordinates, so the finished picture is the same for every block count |
| Pythagoras.New | src/main/java/net/smoofyuniverse/simplex/generator/PythagorasTree.java:37-53 | succeeds if and only if both factors are in [0, 1] and both angles are in [0, pi/2]; otherwise it fails naming the first bad parameter in the source's order |
| Pythagoras.GetColor | src/main/java/net/smoofyuniverse/simplex/generator/PythagorasTree.java:55-59 | rejects a negative level with "n"; otherwise gives the paint interpolating from green to saddle brown |
| Pythagoras.ColorFactorRange | src/main/java/net/smoofyuniverse/simplex/generator/PythagorasTree.java:58 | the interpolation factor 1 - 0.85^(n-2) is negative at levels 0 and 1, zero at level 2 and strictly between 0 and 1 above |
| Pythagoras.Generate | src/main/java/net/smoofyuniverse/simplex/generator/PythagorasTree.java:61-76 | succeeds if and only if n >= 0 and both initial sizes are positive; otherwise the error names the first bad argument |
| Pythagoras.Head | src/main/java/net/smoofyuniverse/simplex/generator/PythagorasTree.java:82-84 | the opening of every node: stroke getColor(n), line width, and the branch drawn with the pen down; HeadCounts and HeadRun state what it does |
| Pythagoras.Branch | src/main/java/net/smoofyuniverse/simplex/generator/PythagorasTree.java:78-98 | _generate as a command trace: nothing at level -1; only the head when a child dimension is exactly 0; otherwise the head, the two subtrees between the three turns, and the move back; BranchCounts, BranchNetTurn, BranchReturns and BranchLevel state its properties |
| Pythagoras.HeadCounts | src/main/java/net/smoofyuniverse/simplex/generator/PythagorasTree.java:82-84 | the head of a node draws one branch, with no pen-up move and no turn |
| Pythagoras.HeadRun | src/main/java/net/smoofyuniverse/simplex/generator/PythagorasTree.java:82-84 | the head sets the level's stroke and width and moves the turtle length along its heading |
| Pythagoras.BranchCounts | src/main/java/net/smoofyuniverse/simplex/generator/PythagorasTree.java:78-98 | with positive factors, a tree of level n draws 2^(n+1) - 1 branches and makes as many pen-up moves back |
| Pythagoras.BranchPenUpMovesGoBack | src/main/java/net/smoofyuniverse/simplex/generator/PythagorasTree.java:78-98 | every move made with the pen up goes backwards |
| Pythagoras.BranchNetTurn | src/main/java/net/smoofyuniverse/simplex/generator/PythagorasTree.java:91-95 | for any parameters, the turns of a subtree sum to zero |
| Pythagoras.NodeReturns | src/main/java/net/smoofyuniverse/simplex/generator/PythagorasTree.java:82-97 | a node whose subtrees return the turtle also returns it to its position and heading |
| Pythagoras.BranchReturns | src/main/java/net/smoofyuniverse/simplex/generator/PythagorasTree.java:78-98 | with positive factors, drawing a subtree leaves the turtle where it started, facing the same way |
| Pythagoras.BranchEarlyExit | src/main/java/net/smoofyuniverse/simplex/generator/PythagorasTree.java:86-89 | a node whose child width or length is exactly 0 draws one branch with no turn and no move back, leaving the turtle at the branch's tip |
| Pythagoras.BranchLevel | src/main/java/net/smoofyuniverse/simplex/generator/PythagorasTree.java:78-98 | every drawn branch follows the stroke getColor(k) and the width width * widthFactor^(n-k), and has length length * lengthFactor^(n-k), for some level 0 <= k <= n |
| Pythagoras.GenerateRestoresAttributes | src/main/java/net/smoofyuniverse/simplex/generator/PythagorasTree.java:69-75 | generate leaves the stroke and line width as it found them |
| Pythagoras.GenerateRestoresTurtle | src/main/java/net/smoofyuniverse/simplex/generator/PythagorasTree.java:61-76 | with positive factors, generate leaves the whole turtle state as it found it |
| Pythagoras.ZeroFactorDrawsRootOnly | src/main/java/net/smoofyuniverse/simplex/generator/PythagorasTree.java:86-89 | a zero factor stops the tree at its root at any level: one branch drawn, no turn |
| Koch.Curve | src/main/java/net/smoofyuniverse/simplex/ui/tab/KochSnowflakePane.java:62-77 | generateKochCurve as a command trace: one drawn segment at depth 0, otherwise four curves of depth n-1 at a third of the length, joined by the turns pi/3, -2pi/3 and pi/3; CurveCounts, CurveMoves and CurveKeepsHeading state its properties |
| Koch.Snowflake | src/main/java/net/smoofyuniverse/simplex/ui/tab/KochSnowflakePane.java:53-60 | generateKochSnowflake as a command trace: three curves, each followed by the turn -2pi/3; SnowflakeCounts states its properties |
| Koch.CurveCounts | src/main/java/net/smoofyuniverse/simplex/ui/tab/KochSnowflakePane.java:62-77 | the depth-n curve draws 4^n segments, turns 4^n - 1 times, never moves with the pen up, and its turns cancel out |
| Koch.CurveMoves | src/main/java/net/smoofyuniverse/simplex/ui/tab/KochSnowflakePane.java:62-77 | every move of the depth-n curve draws a segment of length length / 3^n |
| Koch.CurveKeepsHeading | src/main/java/net/smoofyuniverse/simplex/ui/tab/KochSnowflakePane.java:62-77 | drawing a curve leaves the turtle's heading unchanged |
| Koch.SnowflakeCounts | src/main/java/net/smoofyuniverse/simplex/ui/tab/KochSnowflakePane.java:53-60 | the snowflake draws 3 * 4^n segments, all with the pen down, and turns the turtle by -2 pi in total |
| MandelbrotPane.PressColorMode | src/main/java/net/smoofyuniverse/simplex/ui/tab/MandelbrotSetPane.java:90-106 | the button cycles the mode 0 -> 1 -> 2 -> 0 with the matching label, leaves any other mode alone, changes nothing else and always regenerates |
| MandelbrotPane.ModeCycle | src/main/java/net/smoofyuniverse/simplex/ui/tab/MandelbrotSetPane.java:90-104 | three presses bring the pane back to where it was |
| MandelbrotPane.ModeColors | src/main/java/net/smoofyuniverse/simplex/ui/tab/MandelbrotSetPane.java:141-150 | the table for a mode has maxIterations entries and ends in black |
| MandelbrotPane.ModeColorsEntries | src/main/java/net/smoofyuniverse/simplex/ui/tab/MandelbrotSetPane.java:141-150 | entry i is red sqrt(i/max) in mode 1, red (i/max)^2 in mode 2, and the default red i/max otherwise |
| MandelbrotPane.Level | src/main/java/net/smoofyuniverse/simplex/ui/tab/MandelbrotSetPane.java:142-149 | the red level of entry i: sqrt(i / max) in mode 1 and (i / max)^2 in mode 2, with `Math.pow(v, 2)` taken as v * v |
| MandelbrotPane.Recolor | src/main/java/net/smoofyuniverse/simplex/ui/tab/MandelbrotSetPane.java:141-150 | the overwrite loops give the mode's table in modes 1 and 2 and leave the table untouched otherwise |
| MandelbrotPane.QuadraticColorsInRange | src/main/java/net/smoofyuniverse/simplex/ui/tab/MandelbrotSetPane.java:146-149 | every quadratic colour has red in [0, 1), no green or blue, and is never redder than the default one |
| MandelbrotPane.RootColorsInRange | src/main/java/net/smoofyuniverse/simplex/ui/tab/MandelbrotSetPane.java:142-145 | when sqrt maps [0, 1) into itself, every root colour has red in [0, 1) and no green or blue |
| MandelbrotPane.Zoom | src/main/java/net/smoofyuniverse/simplex/ui/tab/MandelbrotSetPane.java:70-77 | scrolling up shrinks a positive scale; scrolling down grows it but never above 0.1; a positive scale stays positive |
| MandelbrotPane.ZoomKeepsScaleInRange | src/main/java/net/smoofyuniverse/simplex/ui/tab/MandelbrotSetPane.java:70-77 | a scale in the field's range [0, 0.1] stays in that range after any scroll |
| MandelbrotPane.ZoomRoundTrip | src/main/java/net/smoofyuniverse/simplex/ui/tab/MandelbrotSetPane.java:72-76 | zooming in then out restores the scale, and so does zooming out then in when the cap is not hit |
| MandelbrotPane.Origin | src/main/java/net/smoofyuniverse/simplex/ui/tab/MandelbrotSetPane.java:139 | the corner of the view, center - 350 * scale on each axis; ConfigureSucceeds shows that pixel 350 then maps back to the centre |
| MandelbrotPane.Scroll | src/main/java/net/smoofyuniverse/simplex/ui/tab/MandelbrotSetPane.java:70-77 | only the scale changes; the scale listener sets zooming and regenerates exactly when the value changes |
| MandelbrotPane.Click | src/main/java/net/smoofyuniverse/simplex/ui/tab/MandelbrotSetPane.java:79-88 | a click while zooming is ignored; otherwise the centre moves by (click - 350) * scale on each axis, with one regeneration per coordinate that changes |
| MandelbrotPane.Recentre | src/main/java/net/smoofyuniverse/simplex/ui/tab/MandelbrotSetPane.java:84 | the new centre coordinate after a click, center + (click - 350) * scale; ClickLandsOnPixelPoint shows it is the point rendered under the clicked pixel |
| MandelbrotPane.ClickCentreIsNoOp | src/main/java/net/smoofyuniverse/simplex/ui/tab/MandelbrotSetPane.java:79-88 | a click on the view's centre pixel changes nothing and triggers no regeneration |
| MandelbrotPane.ClickLandsOnPixelPoint | src/main/java/net/smoofyuniverse/simplex/ui/tab/MandelbrotSetPane.java:84 | the new centre after a click is the complex point the engine computes for the clicked pixel |
| MandelbrotPane.BuildSet | src/main/java/net/smoofyuniverse/simplex/ui/tab/MandelbrotSetPane.java:139-150 | the engine is built if and only if threads > 0, an executor is given, the scale is non-zero and iterations > 0; it then carries the mode's colour table |
| MandelbrotPane.ConfigureAsWritten | src/main/java/net/smoofyuniverse/simplex/ui/tab/MandelbrotSetPane.java:133-139 | a zero scale returns without building an engine, and any other scale attempts the build |
| MandelbrotPane.Configure | src/main/java/net/smoofyuniverse/simplex/ui/tab/MandelbrotSetPane.java:133-139 | the same, always passing the pane's executor |
| MandelbrotPane.SingleThreadRejected | src/main/java/net/smoofyuniverse/simplex/ui/tab/MandelbrotSetPane.java:138-139 | with one thread the build as written throws "executor", while the corrected build succeeds |
| MandelbrotPane.ConfigureAgreesAboveOneThread | src/main/java/net/smoofyuniverse/simplex/ui/tab/MandelbrotSetPane.java:139 | above one thread the code as written and the correction agree |
| MandelbrotPane.ConfigureSucceeds | src/main/java/net/smoofyuniverse/simplex/ui/tab/MandelbrotSetPane.java:133-150 | valid fields give a valid engine with blocks = threads, both scales equal to the scale, the mode's colours, and pixel (350, 350) mapped to the centre |
| MandelbrotPane.ViewFitsInInt | src/main/java/net/smoofyuniverse/simplex/ui/tab/MandelbrotSetPane.java:156 | the 700x700 view and its block partition fit in a Java int for 1 to 4 threads |
| MandelbrotPane.Render | src/main/java/net/smoofyuniverse/simplex/ui/tab/MandelbrotSetPane.java:152-165 | the task expects 700 * 700 increments; a cancelled task changes neither the pane nor the view; otherwise zooming is cleared, the view shows the full raster, and the increments meet the expectation |
| MandelbrotPane.Launch | src/main/java/net/smoofyuniverse/simplex/ui/tab/MandelbrotSetPane.java:150-163 | the tail of generate() once the set is built: no set changes nothing; a constructor exception changes nothing and is the one thrown; a built set is rendered, and a task cancelled by the end leaves the pane and the view untouched, while one not cancelled clears zooming and shows the full raster |
| MandelbrotPane.Refresh | src/main/java/net/smoofyuniverse/simplex/ui/tab/MandelbrotSetPane.java:133-165 | generate() as written: a zero scale does nothing; a non-zero scale with one thread throws "executor" and changes nothing; with two threads or more, a non-positive iteration count throws "maxIterations" and changes nothing; otherwise a task cancelled by the end leaves the pane and the view untouched and throws nothing, and a task not cancelled clears zooming and shows the full raster of the configured engine, whose centre pixel has the colour of the centre point's iteration count |
| MandelbrotPane.RefreshCorrected | src/main/java/net/smoofyuniverse/simplex/ui/tab/MandelbrotSetPane.java:133-165 | generate() with the executor always passed: the same outcomes, including the cancelled task that leaves the pane and the view untouched, except that one thread renders the full raster like any other count |
| PerlinPane.Visit | src/main/java/net/smoofyuniverse/simplex/ui/tab/PerlinNoisePane.java:91-94 | one sample widens the running bounds just enough to include it, and each bound is the old one or the sample |
| PerlinPane.ColumnBoundsExtremal | src/main/java/net/smoofyuniverse/simplex/ui/tab/PerlinNoisePane.java:88-97 | the bounds after a column contain every sample in it; each is the start bound or some sample |
| PerlinPane.GridBoundsExtremal | src/main/java/net/smoofyuniverse/simplex/ui/tab/PerlinNoisePane.java:84-98 | the bounds after the grid contain every sample in it; each is the start bound or some sample |
| PerlinPane.ScanColumn | src/main/java/net/smoofyuniverse/simplex/ui/tab/PerlinNoisePane.java:88-97 | the inner loop stores each sample of the column and computes its bounds |
| PerlinPane.ScanSamples | src/main/java/net/smoofyuniverse/simplex/ui/tab/PerlinNoisePane.java:84-98 | the first pass stores pixels[x][y] = sample(x, y, t), and only ever widens the bounds, to a pair that contains every sample |
| PerlinPane.ShadeOf | src/main/java/net/smoofyuniverse/simplex/ui/tab/PerlinNoisePane.java:106 | a grey level produced by Color.gray lies in [0, 1] |
| PerlinPane.ShadeWithinBounds | src/main/java/net/smoofyuniverse/simplex/ui/tab/PerlinNoisePane.java:100-106 | a sample within the bounds never makes Color.gray throw; it is NaN when the range is empty; the minimum maps to black and the maximum to white |
| PerlinPane.Shades | src/main/java/net/smoofyuniverse/simplex/ui/tab/PerlinNoisePane.java:104-107 | the second pass succeeds if and only if every pixel's grey level is accepted, and then colours exactly the pixels of the grid |
| PerlinPane.ShadingIsShadeOf | src/main/java/net/smoofyuniverse/simplex/ui/tab/PerlinNoisePane.java:106 | for a sample within the bounds, Color.gray((v - min) / range) gives the normalised shade |
| PerlinPane.ShadesWithinBounds | src/main/java/net/smoofyuniverse/simplex/ui/tab/PerlinNoisePane.java:100-107 | when every sample lies within the bounds, the second pass succeeds with the normalised frame |
| PerlinPane.FrameImageShades | src/main/java/net/smoofyuniverse/simplex/ui/tab/PerlinNoisePane.java:100-107 | the normalised frame covers exactly the grid with grey levels in [0, 1]; it is all NaN when the range is empty; a minimal sample is black and a maximal one is white |
| PerlinPane.GenerateImage | src/main/java/net/smoofyuniverse/simplex/ui/tab/PerlinNoisePane.java:71-107 | fails if and only if a size is not positive; otherwise it stores the widened bounds, which contain every sample of the frame, and returns the normalised frame |
| PerlinPane.NextFrame | src/main/java/net/smoofyuniverse/simplex/ui/tab/PerlinNoisePane.java:116-119 | a selected tick advances the clock by one and renders a 400x400 frame at the new time with bounds widened to contain its samples |
| PerlinPane.AsWrittenMaxNotAttained | src/main/java/net/smoofyuniverse/simplex/ui/tab/PerlinNoisePane.java:44 | with the initial max Double.MIN_VALUE and an all-negative first frame, the max stays at that positive value, no sample reaches it and no pixel is white |
| PerlinPane.FirstFrameSpansFullRange | src/main/java/net/smoofyuniverse/simplex/ui/tab/PerlinNoisePane.java:44 | starting from -Double.MAX_VALUE instead, both bounds of the first frame are samples, and a frame with a non-empty range has a white pixel |

## Left out

- Concurrency: the blocks of `MandelbrotSet.generate` run on an executor and are joined by a `CountDownLatch`. The model runs them one after the other in block order. In the source, a dispatch poll that sees cancellation returns at once and skips `latch.await()`, so blocks already dispatched may go on writing after `generate` has returned; the model lets every dispatched block finish before the call returns. Each block writes a disjoint set of pixels, so the final image does not depend on the order. The latch and its `InterruptedException` are not modelled.
- JavaFX plumbing is not modelled:
  - `Platform.runLater`;
  - the progress-bar binding;
  - the `AutoCancellingSupplier` that cancels the previous task;
  - the layout code in the pane constructors;
  - the shutdown listener.
- `PathHelper` and its trigonometry are not part of this model. The turtle's heading-to-direction function is a parameter.
- Floating-point rounding and special values: doubles are exact reals, so no real value in the model is NaN or infinite. The one NaN the core produces, the grey level 0/0 of a Perlin frame whose samples are all equal, is modelled as the `NotANumber` shade, and the ±infinity of a zero range with a sample other than the minimum is modelled as the `IllegalArgument("red")` failure with which `Color.gray` rejects it. In the source a NaN argument passes every range check of the `PythagorasTree` constructor (PythagorasTree.java:38-46) and the `xScale == 0` and `yScale == 0` checks of the `MandelbrotSet` constructor, because every comparison with NaN is false; `Pythagoras.New` and `Mandelbrot.New` cannot express that input. In particular, `Math.pow(x, 2)` is taken to be exactly `x * x`, and `1 - Math.pow(0.85, n - 2)` is exact.
- The Perlin noise library (seed, octaves, frequency, lacunarity, persistence, quality) is a sampler parameter. No property of the noise itself is modelled.
- The render loop of `PerlinNoisePane.Task`:
  - the 70 ms frame pacing and sleeps;
  - the shutdown test;
  - the `isSelected` check, whose result only decides whether `NextFrame` runs.
- `currentTime` is a Java `long`, and its wrap-around after 2^63 frames is not modelled.
- `PythagorasTreePane`, `UserInterface` and `Simplex` are not part of this model.
- `Color.color` and `Color.interpolate` are symbolic colours, and their own argument checks are not modelled. `Mandelbrot.DefaultColorsInRange`, `MandelbrotPane.QuadraticColorsInRange` and `MandelbrotPane.RootColorsInRange` prove that the tables stay inside the range `Color.color` accepts.
- The `DoubleField` and `IntegerField` widgets clamp typed values to their ranges. This clamping is not modelled. The pane's fields are plain values, and the ranges appear as preconditions where the code relies on them.
- The pane's executor is not stored in the model. `Executor` records only whether a non-null executor was passed.
- Koch.Curve: requires `n >= 0`. The source has no guard, and a negative depth recurses until the stack overflows.
- Mandelbrot.Scan: requires the pixel count and the block partition to fit in a Java `int` rather than modelling 32-bit overflow of `width * height` and `blockSize * i`. `MandelbrotPane.ViewFitsInInt` shows that the pane's 700x700 view always meets this.
- Mandelbrot.Generate: carries the same `int` precondition when the size is positive.
- MandelbrotPane.Render: assumes that when the task is not cancelled at the end, no poll during the scan saw cancellation, since a task's cancellation is never undone. It does not model a poll that sees a cancellation the final check does not.
- MandelbrotPane.Refresh: carries the same assumption, and requires the thread count to be in the field's range 1 to 4.
- MandelbrotPane.RefreshCorrected: carries the same two preconditions as MandelbrotPane.Refresh.
- MandelbrotPane.Scroll: property listeners fire only when the value changes. The regeneration count reflects this, but the listener registration itself is not modelled.
- MandelbrotPane.Click: the same holds for the two centre listeners.

## Findings

| source | as written | input that shows it | evidently intended | confidence | as-written member | corrected member |
|---|---|---|---|---|---|---|
| src/main/java/net/smoofyuniverse/simplex/ui/tab/MandelbrotSetPane.java:139 | the pane passes a null executor when threads == 1, and the constructor at MandelbrotSet.java:47-48 rejects a null executor, so nothing is ever drawn with one thread | threads = 1 with a non-zero scale (the field's minimum) | one thread renders on the pane's executor like any other count | not executed | MandelbrotPane.ConfigureAsWritten, MandelbrotPane.SingleThreadRejected, MandelbrotPane.Refresh | MandelbrotPane.Configure, MandelbrotPane.ConfigureSucceeds, MandelbrotPane.RefreshCorrected |
| src/main/java/net/smoofyuniverse/simplex/ui/tab/PerlinNoisePane.java:44 | max starts at Double.MIN_VALUE, the smallest positive double, not the most negative one | a first frame whose samples are all negative, e.g. every sample -0.5 | max starts at -Double.MAX_VALUE, so the first frame's maximum is its largest sample and maps to white | not executed | PerlinPane.InitialAsWritten, PerlinPane.AsWrittenMaxNotAttained | PerlinPane.Initial, PerlinPane.FirstFrameSpansFullRange |
