# Bass-clef two-dot pattern

A Dafny model of `BassPattern`. This pattern matcher looks through the glyphs of one system for the two dots that sit
to the right of a bass (F) clef. The upper dot is at pitch position −3 and the lower dot at −1. For every qualifying
couple of dots, it asks the compound builder to grow a bass clef from the upper dot. It returns how many of
those builds succeeded. The model covers:

- the matcher itself (`runPattern`);
- the compound adapter it hands to the builder (`BassAdapter`: which glyphs may join the compound, and the search box
  around the seed);
- the three tunable constants with their default values.

Modules:

- `Wrappers`: `Option` and `Result`.
- `Geometry`: integer points and rectangles. `Add` follows `java.awt.Rectangle.add(Point)`, which the pixel
  rectangle inherits.
- `Glyphs`: shapes, the bass-clef shape range and the glyph record.
- `BassCouples`: the match rule as pure definitions. These are the couples the nested scan meets, in scan order
  (`Couples`, built row by row with `Row`), the seeds handed to the builder (`Seeds`), and the number of successful
  builds among the seeds logged from a given position on (`BuiltCount`). The lemmas state what the rule guarantees.
- `BassPattern`: the constants, the scale, the system, the `BassAdapter` class, the compound builder, and the scan
  itself as imperative code with loop invariants.
  - `ScanBottoms` is the inner loop over the bottom candidates of one top dot.
  - `ScanTop` is one turn of the outer loop. It holds the top-dot test and runs `ScanBottoms` when the test passes.
  - `ScanSystem` is the outer loop. It calls `ScanTop` for every glyph.
  - `RunPattern` sets up the run (constants, pixel tolerance, adapter) and calls `ScanSystem`.

The compound builder is outside the modelled code. It is a class that records every seed it is given (`seeds`).
Its verdict (a compound or `null`) comes from an arbitrary function `decide` of the seeds given before and the new
seed. Nothing is assumed about that function. So every property of `RunPattern` holds whatever the builder decides.

Glyphs can be used more than once. One top with several matching bottoms triggers one build per bottom, all seeded
with the same top (`BuildsPerTop`). A glyph may also be the top of one couple and the bottom of another, or pair with
itself, once the pitch tolerance reaches one step (`WideToleranceAdmitsOneDot`). Below one step, and so under the
default of half a step, the two pitch tests exclude each other (`TopBotExclusive`).

The staff test compares the results of `getStaffAtY` by reference (`BassPattern.java:106`). So two dots that both lie
outside every staff (both `null`) still pair, and a glyph without a staff is not skipped. `StafflessDotsPair` states
this.

## Model

| member | source | states |
|---|---|---|
| BassPattern.RunPattern | src/main/omr/glyph/pattern/BassPattern.java:73-129 | With the tolerances taken from the constants and the scale, the builder is seeded with the top of every qualifying couple, in the order of the nested scan, and nothing else changes. The returned count is the number of successful builds among the seeds added by this run. |
| BassPattern.ScanSystem | src/main/omr/glyph/pattern/BassPattern.java:85-126 | The outer scan appends to the builder's seeds the top of every couple met by the nested scan, in scan order, and returns the number of those builds that succeeded. |
| BassPattern.ScanTop | src/main/omr/glyph/pattern/BassPattern.java:85-125 | After the turn of one more glyph, the couples met are exactly those of the glyphs taken as tops so far. The turn adds no seed when the glyph fails the top-dot test, and the count grows by the successes among the seeds it adds. |
| BassPattern.ScanBottoms | src/main/omr/glyph/pattern/BassPattern.java:92-125 | For a top dot, the inner scan appends to the builder's seeds exactly the row of couples of that top: one seed per matching bottom, in glyph order. The count grows by the successes among them. |
| BassPattern.CompoundBuilder.BuildCompound | src/main/omr/glyph/pattern/BassPattern.java:116-124 | Each call records its seed, seeds the adapter with it, and reports the builder's verdict for that seed, given the seeds before it. |
| BassPattern.BassAdapter.constructor | src/main/omr/glyph/pattern/BassPattern.java:144-148 | The adapter keeps the scale and the maximum doubt, targets the bass-clef range, and starts with no seed. |
| BassPattern.BassAdapter.SetSeed | src/main/omr/glyph/pattern/BassPattern.java:116-120 | The builder hands the top to the adapter before it asks for the box. Afterwards the adapter's seed is that glyph, so the box of lines 162-171 is built around it instead of failing. |
| BassPattern.BassAdapter.IsCandidateSuitable | src/main/omr/glyph/pattern/BassPattern.java:153-157 | A glyph is suitable if and only if its shape was not forced by hand, or its forced shape is in the bass-clef range. A hand-forced dot is never suitable. |
| BassPattern.BassAdapter.IntersectionBox | src/main/omr/glyph/pattern/BassPattern.java:160-174 | Fails if and only if no seed is set. Otherwise the box covers the seed centroid and the point two interlines left and three interlines down from it. With non-negative pixel conversions, it is exactly the rectangle at (cx − toPixels(2), cy) of size toPixels(2) × toPixels(3). |
| BassPattern.DefaultsKeepCouplesDistinct | src/main/omr/glyph/pattern/BassPattern.java:188-191 | With the default pitch tolerance of 0.5, no couple pairs a dot with itself, whatever the system and scale. |
| BassPattern.ThreeDotScenario | src/main/omr/glyph/pattern/BassPattern.java:85-108 | Three dots with the default constants and a scale that turns a quarter interline into 5 pixels: A at pitch −3, B at −1 four pixels to its right on the same staff, C at −1 three hundred pixels away. The scan meets (A, B) and only that couple. |
| Geometry.At | src/main/omr/glyph/pattern/BassPattern.java:167 | The rectangle built from a point exists and covers that point and no other. |
| Geometry.Add | src/main/omr/glyph/pattern/BassPattern.java:168-171 | Adding a point to a non-existent rectangle yields the point itself. Adding a point to an existing rectangle yields an existing rectangle that covers the point, spans the old rectangle, and covers every point it covered. |
| Geometry.AddIsSmallest | src/main/omr/glyph/pattern/BassPattern.java:168-171 | The result of adding a point is the smallest rectangle that spans the old rectangle and covers the point. |
| BassCouples.CouplesExactly | src/main/omr/glyph/pattern/BassPattern.java:85-108 | A couple is met by the scan if and only if its top is a glyph of the system, its bottom is a glyph of the system, and the pair passes all four tests. |
| BassCouples.RowExactly | src/main/omr/glyph/pattern/BassPattern.java:96-108 | The inner scan for a top meets exactly the couples of that top with its matching bottoms. |
| BassCouples.RowNeedsTop | src/main/omr/glyph/pattern/BassPattern.java:87-90 | A glyph that fails the top-dot test forms no couple. |
| BassCouples.SkippedTop | src/main/omr/glyph/pattern/BassPattern.java:87-90 | Skipping a glyph that is not a top dot leaves the couples met so far unchanged. |
| BassCouples.InnerScanStep | src/main/omr/glyph/pattern/BassPattern.java:96-108 | A bottom candidate extends the current row by one couple if and only if it passes the tests. |
| BassCouples.NoDotNoCouple | src/main/omr/glyph/pattern/BassPattern.java:85-90 | A system without dots yields no couple. |
| BassCouples.NoDotNoSuccess | src/main/omr/glyph/pattern/BassPattern.java:75-90 | A system without dots yields a success count of 0. |
| BassCouples.BuiltCountBounded | src/main/omr/glyph/pattern/BassPattern.java:116-124 | Counted from any position of the seed log, the successful builds never outnumber the builds. |
| BassCouples.BuiltCountAll | src/main/omr/glyph/pattern/BassPattern.java:116-124 | The count equals the number of builds if and only if every build succeeded. |
| BassCouples.SuccessesBounded | src/main/omr/glyph/pattern/BassPattern.java:116-128 | The success count of a run lies between 0 and the number of qualifying couples. |
| BassCouples.BuildsPerTop | src/main/omr/glyph/pattern/BassPattern.java:96-125 | Builds are never deduplicated and never stopped early. A glyph is the seed of (its occurrences as a top) × (its matching bottoms) builds, so a top with k matching bottoms triggers k builds. |
| BassCouples.RowLength | src/main/omr/glyph/pattern/BassPattern.java:96-125 | A row has one couple per matching bottom, and every couple in it has the given top. |
| BassCouples.RowSeedCount | src/main/omr/glyph/pattern/BassPattern.java:116-120 | Within one row, the builder is seeded with the top once per matching bottom and with nothing else. |
| BassCouples.TopBotExclusive | src/main/omr/glyph/pattern/BassPattern.java:85-100 | With a pitch tolerance below one step, no glyph passes both the top-dot and the bottom-dot test. |
| BassCouples.WideToleranceAdmitsOneDot | src/main/omr/glyph/pattern/BassPattern.java:85-100 | From a tolerance of one step upward, a dot at pitch −2 passes both tests, so the exclusivity above is tight. |
| BassCouples.CoupleMembersDistinct | src/main/omr/glyph/pattern/BassPattern.java:85-108 | With a pitch tolerance below one step, no couple has the same glyph as top and bottom. |
| BassCouples.PairYieldsOneCouple | src/main/omr/glyph/pattern/BassPattern.java:85-108 | Two dots at pitches −3 and −1 with the same abscissa and the same staff, under a non-negative abscissa tolerance and a pitch tolerance from 0 up to (not including) two steps, yield exactly one couple, with the upper dot as top. |
| BassCouples.WidePairYieldsFourCouples | src/main/omr/glyph/pattern/BassPattern.java:85-108 | The same two dots under a pitch tolerance of two steps or more yield four couples in scan order: (upper, upper), (upper, lower), (lower, upper), (lower, lower). |
| BassCouples.LimitsAreInclusive | src/main/omr/glyph/pattern/BassPattern.java:85-104 | A couple exactly at the pitch and abscissa limits qualifies, because the tests reject only values strictly beyond a tolerance. |
| BassCouples.StafflessDotsPair | src/main/omr/glyph/pattern/BassPattern.java:92-108 | Two matching dots that both lie outside every staff still form a couple. |

## Left out

- Logging (`BassPattern.java:111-114`) has no effect on the result and is not modelled.
- The constant-set machinery (`ConstantSet`, `Constant.Double`, `Scale.Fraction`, `Evaluation.Doubt`) is reduced to
  the `Constants` record. The defaults are in `Defaults`. Since the values can be changed at run time, every property
  is stated for arbitrary constants.
- `clefMaxDoubt` is only passed to the adapter. Its use in verifying the built compound belongs to the builder, which
  is not part of this model.
- The compound builder is represented by its verdict, its record of seeds and its seeding of the adapter. Not
  modelled:
  - the builder's growth of the compound;
  - its use of `isCandidateSuitable` and `getIntersectionBox`;
  - its evaluation and consumption of glyphs.

  `BuildCompound` therefore takes the glyph collection only as an argument it leaves alone.
- Changes the builder might make to the system's glyph collection while the scan iterates over it are not modelled.
  The scan works on the collection as it stands when the run starts.
- `double` pitch positions and tolerances are modelled as exact reals. Rounding is not modelled.
- Non-finite pitch positions and tolerances are not modelled. A NaN pitch makes every `>` skip test false
  (`BassPattern.java:88`, `:98`). Such a dot passes both the top test and the bottom test, so it can pair with itself
  and be handed to the builder as the couple (g, g).
- BassPattern.DefaultsKeepCouplesDistinct, BassCouples.CoupleMembersDistinct and BassCouples.TopBotExclusive hold
  for finite pitches only. A dot with a NaN pitch breaks all three in the source.
- `int` pixel coordinates are unbounded. Overflow of `Math.abs` and of the coordinate arithmetic is not modelled,
  and neither is the `Integer.MAX_VALUE` clamping inside `Rectangle.add`.
- The pixel conversion of the scale is an arbitrary function from interline fractions to pixels. The conversion
  itself, including its rounding, is not part of this model.
- The staff lookup of the system is an arbitrary function from ordinates to an optional staff identifier.
- `ShapeRange.BassClefs` is not part of this model. It is taken to be the three F-clef shapes: plain, ottava alta and
  ottava bassa.
- `Geometry.Covers` treats rectangle edges as inside (closed bounds). `java.awt.Rectangle.contains` excludes the
  right and bottom edges. The box properties are stated with the closed reading.
- `BracketConnectorInter` is not part of this model. It is unrelated to the two-dot rule.
