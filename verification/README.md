# QR-code SVG renderer geometry, in Dafny

This project models the rendering core of a QR-code SVG renderer. The renderer's class is
`QRSVG`, and it uses a corner-square figure `QRCornerSquare`. The model covers:

- how the module grid is sized and centred on the canvas;
- which modules the drawing filter admits around the three finder patterns and under a centred logo;
- where each module's dot is placed, and what its neighbour test reports;
- where the three corner markers go and how they are rotated;
- how a marker is built from single modules when no corner style is set;
- the paths the three corner-square styles draw;
- the end points of linear and radial gradients;
- where the logo is placed;
- the style rules appended for each coloured part.

Grid and pixel arithmetic is in `int`. A floor division by a positive divisor is Dafny's `/`.
Figure paths and gradient geometry are in `real`. The platform's constants and float operations are
written out:

- pi is `3.141592653589793`, the shortest decimal that reads back as the platform's `Math.PI`;
- `Math.round(v)` is `floor(v + 1/2)`;
- the float remainder `%` truncates toward zero, so its result keeps the dividend's sign.

The QR encoder's dark-module matrix `isDark` and the logo sizing step are function-valued parameters.
The tangent of a gradient's rotation is a number parameter.

Modules, one per file:

- `Wrappers`: `Option` and `Result`.
- `Geometry`: pixel positions and rectangles, rounding, and the remainder by a full turn.
- `Layout`: canvas, module size, grid origin, the canvas-too-small error, and dot placement.
- `Masks`: the two 7 by 7 finder tables, the hidden logo band, and the drawing filter.
- `Neighbours`: the neighbour test passed to each drawn module.
- `Dots`: the module-drawing loop.
- `Paths`: path commands and a pen that traces them.
- `CornerSquare`: the corner-square figure, with its dispatch, rotation and three path styles.
- `Corners`: marker anchors, marker boxes, the module fallback, and the three corners.
- `Gradient`: the fill of a coloured region.
- `Styles`: instance ids and the style sheet.
- `Image`: the logo's sizing request and its placement.
- `Render`: one whole render.

## Model

| member | source | states |
|---|---|---|
| Geometry.Round | src/core/QRSVG.ts:564-567 | A rounded end point lies within one half of the value it rounds, with halves going up. |
| Geometry.RemTwoPi | src/core/QRSVG.ts:529-530 | The remainder by a full turn lies strictly between -2π and 2π, has the dividend's sign, and differs from the dividend by a whole number of turns. |
| Layout.DotSize | src/core/QRSVG.ts:192-193 | The module size is the largest d with count·d ≤ min(width, height) − 2·margin. |
| Layout.Beginning | src/core/QRSVG.ts:194-195 | An origin puts half of the unused room, rounded down, before the grid. |
| Layout.GridOf | src/core/QRSVG.ts:192-195 | The grid has the given count and the module size above, and each origin is centred on its own axis. |
| Layout.CheckedGrid | src/core/QRSVG.ts:188-195 | Layout fails with "The canvas is too small." exactly when count > width or count > height. Otherwise it yields the centred grid. |
| Layout.GridFitsCanvas | src/core/QRSVG.ts:192-195 | With margin ≥ 0 and a non-negative drawable size: the module size is non-negative, the grid lies inside the canvas, and the margin is kept clear on every side. |
| Layout.DotSizeNonNegative | src/core/QRSVG.ts:192-193 | A non-negative drawable size gives a non-negative module size. |
| Layout.MarginIgnoredBySizeCheck | src/core/QRSVG.ts:188-193 | The size check ignores the margin. A 21 by 21 canvas with margin 6 and 21 modules passes it, with zero-pixel modules. |
| Layout.Place | src/core/QRSVG.ts:231-232 | Corrected placement: legacy mode maps i to x and j to y. Non-legacy mode maps j to x and i to y, each from its own axis's origin. Every in-grid module lies inside the grid. |
| Layout.PlacedModuleOnCanvas | src/core/QRSVG.ts:231-232 | Under the corrected placement, every module of a laid-out grid lies on the canvas, in either mode. |
| Layout.PlaceAsWrittenOnSquareCanvas | src/core/QRSVG.ts:231-232 | On a square canvas the placement as written equals the corrected one. |
| Layout.PlaceAsWritten | src/core/QRSVG.ts:231-232 | Definition, with no contract of its own: the dot loop's placement as written, legacy mode x = xBeginning + i·d, y = yBeginning + j·d, non-legacy x = yBeginning + j·d, y = xBeginning + i·d. Its properties are in the next two rows and in the first Findings row. |
| Layout.PlaceAsWrittenIsPlace | src/core/QRSVG.ts:231-232 | The placement as written equals the corrected one in legacy mode, and in non-legacy mode whenever the two origins coincide. |
| Layout.PlaceAsWrittenLeavesCanvas | src/core/QRSVG.ts:231-232 | On a 300 by 100 canvas with 10 modules, the non-legacy placement as written puts every module below the bottom edge. The corrected one keeps it on the canvas. |
| Masks.SquareMaskIsRing | src/core/QRSVG.ts:10-18 | The square table marks exactly the outer ring of the 7 by 7 box. |
| Masks.DotMaskIsCore | src/core/QRSVG.ts:20-28 | The dot table marks exactly the central 3 by 3 block. |
| Masks.MaskCellsMembers | src/core/QRSVG.ts:322-326 | The row-major enumeration of a table yields exactly its marked cells. |
| Masks.MaskCellsNoRepeats | src/core/QRSVG.ts:322-326 | The enumeration lists no cell twice. |
| Masks.MaskCellCounts | src/core/QRSVG.ts:322-326 | The square table has 24 marked cells and the dot table has 9. |
| Masks.FinderMaskedIsMarker | src/core/QRSVG.ts:135-141 | The six table lookups mark exactly the ring and centre cells at the three anchors (top-left, offset count−7 in i, offset count−7 in j). |
| Masks.Paintable | src/core/QRSVG.ts:123-144 | Definition, with no contract of its own: the filter as written, which rejects a hidden module, then any of the six finder-table lookups. `Masks.PaintableIff` states what it admits. |
| Masks.PaintableIff | src/core/QRSVG.ts:123-144 | The filter admits a module if and only if it is neither hidden under the logo nor a finder ring or centre cell. |
| Masks.PaintableOutsideFootprints | src/core/QRSVG.ts:123-144 | Outside the three 7 by 7 footprints and outside the hidden band, the filter admits every module. |
| Masks.LightRingAdmitted | src/core/QRSVG.ts:135-143 | The light ring between a finder's outer ring and centre is admitted at all three anchors, e.g. (1, 1). |
| Masks.FinderMaskTranspose | src/core/QRSVG.ts:135-141 | The finder-mask part of the filter is unchanged by swapping i and j. |
| Masks.HiddenTranspose | src/core/QRSVG.ts:124-132 | Swapping i and j in the logo band is the same as swapping the two hide counts. |
| Masks.PaintableTranspose | src/core/QRSVG.ts:123-144 | When the hide counts are equal, or hiding is off, the whole filter is symmetric. |
| Masks.NothingHiddenWithoutFootprint | src/core/QRSVG.ts:124-132 | When either hide count is 0, no module is hidden. |
| Masks.HiddenBandInGrid | src/core/QRSVG.ts:126-129 | With 0 ≤ h ≤ count, every index in the band lies in [0, count). |
| Masks.HiddenBandSize | src/core/QRSVG.ts:126-129 | With 0 ≤ h ≤ count, exactly h indices satisfy (count−h)/2 ≤ k < (count+h)/2. |
| Neighbours.Neighbour | src/core/QRSVG.ts:234-243 | Corrected test: a neighbour counts if and only if the offset module is on the grid, admitted by the filter, and dark. The filter and the darkness read use the same module. |
| Neighbours.NeighbourAsWritten | src/core/QRSVG.ts:234-243 | Definition, with no contract of its own: the neighbour test as written, including the non-legacy filter call on (j + xOff, i + yOff). The rows below and the second Findings row state its properties. |
| Neighbours.NeighbourAsWrittenSound | src/core/QRSVG.ts:234-243 | A neighbour the test as written reports is on the grid and dark. |
| Neighbours.NeighbourAsWrittenWithSymmetricFilter | src/core/QRSVG.ts:240-242 | With any filter symmetric in its arguments, the test as written equals the corrected one. |
| Neighbours.NeighbourAsWrittenWithRendererFilter | src/core/QRSVG.ts:240-242 | With the renderer's filter, the two tests agree when the hide counts are equal or hiding is off. |
| Neighbours.NeighbourAsWrittenSeesHiddenModule | src/core/QRSVG.ts:240-242 | On 21 modules with hide counts 1 and 5, the test as written reports hidden module (10, 8) as a neighbour of (10, 7). |
| Neighbours.NonLegacyIsTransposedLegacy | src/core/QRSVG.ts:234-243 | Non-legacy mode is legacy mode on the transposed symbol. |
| Dots.DrawDots | src/core/QRSVG.ts:222-251 | Exactly the in-grid modules that the filter admits and that are dark get a dot, in strict row-major order. Each dot is at the position the loop writes, including the swapped origins of non-legacy mode. |
| Dots.DrawnDotOnCanvas | src/core/QRSVG.ts:231-232 | Every drawn module's dot lies on the canvas in legacy mode, and in either mode on a square canvas. |
| CornerSquare.Draw | src/core/figures/cornerSquare/svg/QRCornerSquare.ts:14-39 | Drawing keeps the style and sets a fresh path with the even-odd clip rule. The path is rotated about the box centre by the angle in degrees (degrees·π = 180·rotation). |
| CornerSquare.StyleNamed | src/core/figures/cornerSquare/svg/QRCornerSquare.ts:18-28 | A configured name selects the style the switch compares it with: `square` the square, `extra-rounded` the extra-rounded style, `dot` the dot. Every other name, the empty one included, is kept as an unknown name. |
| CornerSquare.PathFor | src/core/figures/cornerSquare/svg/QRCornerSquare.ts:18-28 | Definition, with no contract of its own: the style switch, with `dot` as the default. `CornerSquare.DrawDispatch` states it. |
| CornerSquare.DotPath | src/core/figures/cornerSquare/svg/QRCornerSquare.ts:50-54 | Definition, with no contract of its own: the dot path's commands. `CornerSquare.DotPoints` and `CornerSquare.DotShape` state what it traces. |
| CornerSquare.SquarePath | src/core/figures/cornerSquare/svg/QRCornerSquare.ts:69-73 | Definition, with no contract of its own: the square path's commands. `CornerSquare.SquarePoints` and `CornerSquare.SquareShape` state what it traces. |
| CornerSquare.ExtraRoundedOuter | src/core/figures/cornerSquare/svg/QRCornerSquare.ts:90-98 | Definition, with no contract of its own: the outer subpath of the extra-rounded style. `CornerSquare.ExtraRoundedOuterPoints` and `CornerSquare.ExtraRoundedOuterShape` state what it traces. |
| CornerSquare.ExtraRoundedInner | src/core/figures/cornerSquare/svg/QRCornerSquare.ts:99-107 | Definition, with no contract of its own: the inner subpath of the extra-rounded style. `CornerSquare.ExtraRoundedInnerPoints` and `CornerSquare.ExtraRoundedInnerShape` state what it traces. |
| CornerSquare.DrawDispatch | src/core/figures/cornerSquare/svg/QRCornerSquare.ts:18-28 | `square` draws the square path and `extraRounded` draws the extra-rounded path. `dot` and every unknown style draw the dot path. |
| CornerSquare.RotationLeavesPathAlone | src/core/figures/cornerSquare/svg/QRCornerSquare.ts:33-39 | The path commands and clip rule do not depend on the rotation. |
| CornerSquare.SquarePoints | src/core/figures/cornerSquare/svg/QRCornerSquare.ts:69-73 | The square path visits the corners of the outer square, then the corners of the inner square, in order. |
| CornerSquare.SquareShape | src/core/figures/cornerSquare/svg/QRCornerSquare.ts:69-73 | The outer subpath is a closed square of side size at (x, y). The hole starts at (x + size/7, y + size/7) with side 5·size/7, strictly inside when size > 0. |
| CornerSquare.ExtraRoundedOuterPoints | src/core/figures/cornerSquare/svg/QRCornerSquare.ts:90-98 | The outer rounded subpath passes through the listed edge and arc points. |
| CornerSquare.ExtraRoundedOuterShape | src/core/figures/cornerSquare/svg/QRCornerSquare.ts:90-98 | The outer subpath returns to its start, spans size on both axes, and its arcs are quarter circles of radius 2.5·size/7. |
| CornerSquare.ExtraRoundedInnerPoints | src/core/figures/cornerSquare/svg/QRCornerSquare.ts:99-107 | The inner rounded subpath starts at (x + 2.5d, y + d) and passes through the listed points. |
| CornerSquare.ExtraRoundedInnerShape | src/core/figures/cornerSquare/svg/QRCornerSquare.ts:99-107 | The inner subpath returns to its start, spans 5d on both axes (a ring d thick), and its arcs are quarter circles of radius 1.5d. |
| CornerSquare.ExtraRoundedPathPoints | src/core/figures/cornerSquare/svg/QRCornerSquare.ts:88-108 | Tracing the whole extra-rounded path traces the outer subpath, then the inner one. |
| CornerSquare.DotPoints | src/core/figures/cornerSquare/svg/QRCornerSquare.ts:50-54 | The dot path's pen positions, command by command. |
| CornerSquare.DotShape | src/core/figures/cornerSquare/svg/QRCornerSquare.ts:50-54 | The outer arc has radius size/2 and starts at (x + size/2, y). The inner arc has radius size/2 − d and starts at (x + size/2, y + d). Both starts lie at their radius from the box centre. |
| Corners.FallbackDots | src/core/QRSVG.ts:322-332 | The fallback's k-th module is the k-th marked cell of the row-major enumeration, at the box origin plus the cell times d, with size d. |
| Corners.FallbackDotsExact | src/core/QRSVG.ts:322-332 | A table cell is marked if and only if a fallback module sits on it, and no two fallback modules share a cell. |
| Corners.SquareBox | src/core/QRSVG.ts:269-279 | Definition, with no contract of its own: the 7d square box at xBeginning + column·d·(count − 7), yBeginning + row·d·(count − 7). `Corners.SquareBoxOffsets` and the box lemmas below state its properties. |
| Corners.DotBox | src/core/QRSVG.ts:354-356 | Definition, with no contract of its own: the 3d dot box two modules in from the square box. `Corners.DotBoxInsideSquareBox` states its properties. |
| Corners.SquareStyled | src/core/QRSVG.ts:309 | Definition, with no contract of its own: the truthiness test on the corner-square type, which is false for an absent type and for the empty name. |
| Corners.DotStyled | src/core/QRSVG.ts:370 | Definition, with no contract of its own: the truthiness test on the corner-dot type, which is false for an absent type and for the empty string. |
| Corners.DrawCorner | src/core/QRSVG.ts:278-394 | A corner has its anchor's square box and dot box. A set corner-square style (present and not empty) gives exactly the figure `CornerSquare.Draw` makes in the square box with the anchor's rotation. Otherwise the marker is the ring fallback from the box origin. A set corner-dot style gives a shaped dot of that style filling the dot box, with the anchor's rotation. Otherwise the marker is the centre fallback. |
| Corners.FallbackSquareMarker | src/core/QRSVG.ts:322-332 | A corner without a set square style draws 24 modules. A cell is on the ring if and only if one of them sits on it, no two share a cell, and each lies in the square box. |
| Corners.FallbackDotMarker | src/core/QRSVG.ts:383-393 | A corner without a set dot style draws 9 modules. A cell is in the central 3 by 3 block if and only if one of them sits on it, no two share a cell, and each lies in the dot box. |
| Corners.RingModulesExact | src/core/QRSVG.ts:322-326 | The ring fallback sits on exactly the ring cells, each once. |
| Corners.CoreModulesExact | src/core/QRSVG.ts:383-387 | The centre fallback sits on exactly the central cells, each once. |
| Corners.DrawCorners | src/core/QRSVG.ts:273-277 | There are exactly three corners, one per anchor, in anchor order. |
| Corners.ShapedSquareRotation | src/core/QRSVG.ts:309-312 | A shaped marker is rotated by 0, 90 and −90 degrees at the three anchors, about its box centre. |
| Corners.DotBoxInsideSquareBox | src/core/QRSVG.ts:269-279 | The 3d dot box lies inside the 7d square box and shares its centre. |
| Corners.SquareBoxOffsets | src/core/QRSVG.ts:278-279 | Each square box starts at grid offset 0 or (count−7)·d on each axis, as its anchor says. |
| Corners.SquareBoxesDistinct | src/core/QRSVG.ts:273-279 | With count > 7 and d > 0 the three square boxes are distinct. |
| Corners.SquareBoxesDisjoint | src/core/QRSVG.ts:273-279 | With count ≥ 14 and d > 0 the three square boxes are pairwise disjoint. |
| Corners.SquareBoxesInGrid | src/core/QRSVG.ts:269-279 | Every square box lies inside the module grid. |
| Corners.CornerBoxesCoverFootprints | src/core/QRSVG.ts:278-279 | Under the corrected placement, a module lies in one of the three square boxes if and only if it is in one of the three 7 by 7 footprints the filter masks, in both modes. |
| Corners.CornerBoxesCoverDrawnModules | src/core/QRSVG.ts:231-232 | At the position the dot loop writes, a module lies in one of the three square boxes if and only if it is in a finder footprint. This holds in legacy mode, and in non-legacy mode when the two origins coincide. |
| Corners.FallbackCounts | src/core/QRSVG.ts:322-326 | The ring fallback draws 24 modules and the centre fallback draws 9. |
| Corners.RingWithinSquareBox | src/core/QRSVG.ts:322-332 | Every ring fallback module lies in the square box. |
| Corners.CoreWithinDotBox | src/core/QRSVG.ts:383-393 | Every centre fallback module lies in the dot box. |
| Corners.FallbackNeighbourIsRing | src/core/QRSVG.ts:332 | The fallback's neighbour test reports exactly ring (resp. centre) cells, and nothing outside the 7 by 7 table. |
| Gradient.ReducedRotation | src/core/QRSVG.ts:529 | The reduced rotation (absent rotation read as 0) lies strictly between −2π and 2π, has the sign of the sum, and differs from the sum by a whole number of full turns. |
| Gradient.PositiveRotation | src/core/QRSVG.ts:530 | The positive rotation lies in [0, 2π) and equals the reduced rotation, or that rotation plus one full turn. |
| Gradient.Branch | src/core/QRSVG.ts:536-559 | Definition, with no contract of its own: the first guard that holds picks the branch. `Gradient.GuardsPartitionTurn` and `Gradient.SomeDirectionTaken` state that exactly one does. |
| Gradient.GuardsPartitionTurn | src/core/QRSVG.ts:536-559 | On [0, 2π] exactly one of the four branch guards holds. |
| Gradient.SomeDirectionTaken | src/core/QRSVG.ts:529-559 | Whatever the configured and additional rotation, one of the four branches is taken. |
| Gradient.EndPoints | src/core/QRSVG.ts:531-559 | In every branch the end points before rounding are symmetric about the box centre: x0 + x1 = 2x + w and y0 + y1 = 2y + h. |
| Gradient.EndPointsSpanBox | src/core/QRSVG.ts:536-559 | The near-0 branch runs from x to x + w; the others run across or down the box as their quadrant says. A flat branch with tangent 0 lies on the horizontal midline. |
| Gradient.EndPointsFollowSlope | src/core/QRSVG.ts:536-559 | On a square box the line's rise is the tangent times its run in every branch, so it points along the rotation. |
| Gradient.EndPointsContinuous | src/core/QRSVG.ts:536-559 | Neighbouring branches give the same line where they meet (tangent ±1). |
| Gradient.FlatEndPointsOnBox | src/core/QRSVG.ts:536-547 | In the flat branches, with the tangent between −1 and 1, both end points lie on the box. |
| Gradient.SteepEndPointsOnBox | src/core/QRSVG.ts:542-559 | In the steep branches, with the tangent at least 1 in magnitude, both end points lie on the box. |
| Gradient.RoundLine | src/core/QRSVG.ts:564-567 | Each written coordinate is within one half of its end point. |
| Gradient.Stops | src/core/QRSVG.ts:570-575 | One stop per colour stop, in order, with its colour and its offset as a percentage. |
| Gradient.MakeGradient | src/core/QRSVG.ts:519-567 | The gradient carries the region's name as its id and the stops. It is radial exactly when the radial type is configured. |
| Gradient.CreateColor | src/core/QRSVG.ts:509-584 | The rectangle covers the box and is clipped to `clip-path-<name>`. Gradient options give a gradient fill referring to the gradient's id. Failing that, a non-empty colour gives a colour fill. Otherwise there is no fill. |
| Gradient.RadialCentred | src/core/QRSVG.ts:519-527 | Centre and focus are both the box centre. The radius is max(w, h)/2. |
| Gradient.LinearFollowsDirection | src/core/QRSVG.ts:528-567 | A linear gradient's written line is `RoundLine` of the branch's line: each of x1, y1, x2 and y2 is within a half of its end-point coordinate. The line is centred on the box, and some branch is always taken. |
| Styles.Digits | src/core/QRSVG.ts:70-72 | An instance number is written as a non-empty run of decimal digits with no leading zero. |
| Styles.DigitsRoundTrip | src/core/QRSVG.ts:70-72 | Reading the written digits back gives the instance number. |
| Styles.CssColor | src/core/QRSVG.ts:587 | A colour is written as given; an absent one is written as `undefined`. |
| Styles.StyleRule | src/core/QRSVG.ts:587 | Definition, with no contract of its own: the rule text `[data-internal-uid="<id>"] .<name>{ fill: <colour>; }`. `Styles.RuleLayout` and `Styles.RulesScopedToInstance` state its properties. |
| Styles.CreateStyle | src/core/QRSVG.ts:586-588 | Adding a style appends exactly its rule. The old sheet is a prefix of the new one. |
| Styles.RuleLayout | src/core/QRSVG.ts:587 | A rule is the shared selector prefix, then the instance number, then a closing quote. |
| Styles.RulesScopedToInstance | src/core/QRSVG.ts:587 | Two renderer instances never write the same rule, whatever the class names and colours. |
| Styles.SheetGrowsByAppending | src/core/QRSVG.ts:586-588 | The sheet after any first n styles is a prefix of the sheet after all of them. |
| Image.Request | src/core/QRSVG.ts:105-115 | The logo may hide floor(imageSize · ecPercent · count²) modules, and at most count − 14 along an axis. |
| Image.AxisBudgetSparesFinders | src/core/QRSVG.ts:113 | A hidden band within the count − 14 budget stays clear of the first and last 7 modules of the axis. |
| Image.PlaceImage | src/core/QRSVG.ts:442-445 | The logo is its size shrunk by the margin on each side. |
| Image.ImageCentred | src/core/QRSVG.ts:440-445 | The logo's centre is the grid's centre: dx + dw/2 = xBeginning + count·d/2, and likewise for y. |
| Image.ImageWithinGrid | src/core/QRSVG.ts:440-445 | A logo no larger than the grid, whose margin is at most half its size, lies inside the grid. |
| Render.CornerStyles | src/core/QRSVG.ts:299-367 | There are three rules for each corner part without a gradient. Each carries one of the two corner colours and a corner class name. |
| Render.CornerStylesExact | src/core/QRSVG.ts:299-367 | The corner rules are exactly the per-anchor, per-part rules: the square's rule at each anchor when the square has no gradient, the dot's likewise, and no other rule. |
| Render.CornerRulesDistinct | src/core/QRSVG.ts:301 | The six per-anchor, per-part rules are pairwise different. Together with `Render.CornerStylesExact` and the count, each appears exactly once. |
| Render.PartStyles | src/core/QRSVG.ts:152-220 | The background and module rules appear if and only if the part has no gradient and a non-empty colour. The sheet is exactly: the background rule if present, then the module rule if present, then the corner rules. |
| Render.DrawQR | src/core/QRSVG.ts:88-150 | Nothing is drawn exactly when the logo is configured but never loads. Otherwise the render fails with "The canvas is too small." exactly when the symbol does not fit. Otherwise: the grid is the centred layout; without a logo the filter hides nothing; with one, the filter hides the band the sizing step returns for the requested budget, and the logo is placed at that size on the grid; the module dots are exactly the admitted dark modules, each once and in row-major order, at the positions the loop writes; there are three corners; and the style rules are those of the coloured parts. |
| Render.RenderedLogoCentred | src/core/QRSVG.ts:440-445 | In a drawn render with a logo, the logo's centre is the grid's centre on both axes. |
| Render.DrawnDotsAvoidMarkers | src/core/QRSVG.ts:123-144 | No drawn dot is on a finder ring or centre or under the logo, and each drawn dot is dark. In legacy mode, or on a square canvas, each also lies on the canvas. |
| Render.CornerStylesPresent | src/core/QRSVG.ts:299-367 | Every corner part without a gradient gets a rule for each anchor, even when its colour is absent. |
| Render.CornerNamesDistinct | src/core/QRSVG.ts:301 | The three anchors give three different corner class names. |

## Left out

- Creating SVG nodes, `clear`, and appending to groups and clip paths (src/core/QRSVG.ts:49-86): the model records the values emitted, not the node tree.
- Drawing the background (src/core/QRSVG.ts:152-178): only its style rule is modelled. Its gradient rectangle is the `Gradient.CreateColor` call over the canvas box.
- Loading the logo and embedding it as base64 (`loadImage`, `_getImageBlob`, `_blobToBase64`, `_getBase64Image`): this is asynchronous I/O. The loaded picture is a parameter, absent when the load never finishes.
- `calculateImageSize`, `QRDot`, `QRCornerDot`, the error-correction percentages and the corner-square type constants: these files are not part of this model. The three style names `CornerSquare.StyleNamed` compares with are `dot`, `square` and `extra-rounded`. Their results are parameters, and no claim is made about their bounds. A shaped corner dot is recorded by style, box and rotation only.
- The QR encoder: `isDark` is an uninterpreted predicate over `int × int`.
- Render.DrawQR: the fills and gradients of the coloured parts are not evaluated inside the render. A linear gradient needs the tangent of its rotation, which the platform computes in floating point. `Gradient.CreateColor` models that step on its own, with the tangent as a parameter.
- Render.DrawQR: on the canvas-too-small error the render has already drawn the background. The model reports only the error.
- Gradient.EndPoints: the tangent is a parameter. In the steep branches it is required to be non-zero, which holds of the true tangent there. The end-point bounds assume the tangent's magnitude for the quadrant (at most 1 flat, at least 1 steep), which floating point meets only approximately at the boundaries.
- Floating-point rounding of the float remainder and of real-valued coordinates: the model uses exact reals.
- String formatting of path `d` attributes, gradient attributes and stop offsets: paths are modelled as command sequences and offsets as percentages. Style rules are modelled as text.
- The instance counter `_id` and its increment in the constructor: the instance number is a parameter.
- Canvas width, height and margin, and the logo margin, are taken to be integers. The platform's numbers may be fractional, and the floor divisions at src/core/QRSVG.ts:192-195 accept that; the model does not cover fractional sizes.
- The QR encoder module count is taken to be at least 1. The encoder always produces at least 21.
- Render.DrawQR: a logo that never loads is modelled as the `Abandoned` outcome, with nothing drawn. `loadImage` stores the image before its load finishes (src/core/QRSVG.ts:420) and settles only in `onload` (src/core/QRSVG.ts:421-423), with no error handler. So the render waits at the load forever, and the early return at src/core/QRSVG.ts:104 is never reached. `Abandoned` stands for a render that never gets past loading the logo.
- Dots.DrawnDotOnCanvas: the on-canvas fact is stated only in legacy mode or on a square canvas. The non-legacy placement as written (first row under Findings) puts modules off a non-square canvas. `Layout.PlacedModuleOnCanvas` states the fact for the corrected placement.
- Render.DrawnDotsAvoidMarkers: the on-canvas clause holds only in legacy mode or on a square canvas, for the same reason.
- Corners.CornerBoxesCoverDrawnModules: stated only in legacy mode or when the two origins coincide. In non-legacy mode on a non-square canvas the written positions are shifted off the boxes. `Corners.CornerBoxesCoverFootprints` states the fact for the corrected placement.

## Findings

| source | as written | input that shows it | evidently intended | confidence | as-written member | corrected member |
|---|---|---|---|---|---|---|
| src/core/QRSVG.ts:231-232 | non-legacy mode takes x from the vertical origin `yBeginning` and y from the horizontal origin `xBeginning` | a 300 by 100 canvas, margin 0, 10 modules: every module is placed at y ≥ 100, below the canvas | x = xBeginning + j·d, y = yBeginning + i·d. The dot loop (`Dots.DrawDots`) keeps the written placement; the corrected one and its on-canvas proof are `Layout.Place` and `Layout.PlacedModuleOnCanvas` | high; not executed | Layout.PlaceAsWrittenLeavesCanvas | Layout.Place |
| src/core/QRSVG.ts:240-242 | non-legacy neighbour test asks the filter about (j + xOff, i + yOff) but reads the darkness of (i + yOff, j + xOff) | 21 modules, hiding on, hide counts 1 by 5, module (10, 7), offset (1, 0): hidden module (10, 8) is reported as a neighbour | the filter and the darkness read should ask about the same module. Either the test should ask the filter about (i + yOff, j + xOff), or the transposed call is the loop's own `filter(i, j)` (src/core/QRSVG.ts:224). In the second case the hidden band is transposed against the logo in non-legacy mode whenever the two hide counts differ: `hideXDots` comes with the logo's width (src/core/QRSVG.ts:109-115), the width is drawn along x (src/core/QRSVG.ts:442-444), and non-legacy mode maps j to x (src/core/QRSVG.ts:231). The model corrects the neighbour test only | medium, which of the two calls is wrong is not certain; not executed | Neighbours.NeighbourAsWrittenSeesHiddenModule | Neighbours.Neighbour |
