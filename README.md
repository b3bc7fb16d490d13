# mpldxf renderer model

A Dafny model of the matplotlib DXF backend in `mpldxf/backend_dxf.py`: the renderer that
turns matplotlib drawing calls into ezdxf entities (LWPOLYLINE, HATCH and TEXT) appended to
the drawing's modelspace, and the canvas that hands that renderer out.

The model covers:

- colour quantisation (`rgb_to_dxf`), with black drawn as white;
- clipping (`_clip_mpl`), both the rectangle clip of a patch and the NaN-stripping shapely
  intersection of a line;
- polyline emission (`_draw_mpl_lwpoly`), fill hatches associated with their polylines
  (`_draw_mpl_patch`), and the one-inch hatch tiling (`_draw_mpl_hatch`);
- dispatch by the group stack (`draw_path`, `draw_markers`, `open_group`, `close_group`) and
  `draw_path_collection`;
- text clean-up and alignment (`draw_text`, `_map_align`, the alignment table);
- the renderer cache of `FigureCanvasDxf.get_dxf_renderer`.

Modules:

- `Results`: Option and Result.
- `Sequences`: generic facts about concatenation used by the proofs.
- `Colors`: the palette and `rgb_to_dxf`.
- `Geometry`: coordinates, paths, the graphics context, and the geometry kernels. The
  shapely and ezdxf clipping calls are function-valued fields of a `Kernel`. The palette's
  nearest-colour lookup is a field of `Palette`. Each drawing call receives these as
  parameters.
- `Clipping`: the clip of one contour.
- `Entities`: what the modelspace holds.
- `Emission`: the polylines and fill hatches.
- `HatchTiling`: the hatch tile grid and the clip of each piece.
- `TextCleanup`: string clean-up for text.
- `Alignment`: text alignment.
- `TextPlacement`: what a `draw_text` call appends or raises.
- `Renderer`: the class `RendererDxf`. Its `modelspace` and `groupd` (the `_groupd` stack)
  are fields that its methods update in place.
- `Canvas`: the class `FigureCanvasDxf`.

Each state-changing method is specified by a function of the old state: `PatchEntities`,
`AfterCollection`, `HatchEntities`, `DrawTextOutcome` and so on. Lemmas then state the
properties of those functions.

Where the code departs from its evident intent, the model follows the code:

- At exactly 90 degrees the horizontal alignment is forced to RIGHT when the rotation mode is
  *not* "anchor" (lines 408-412). In that case `ha` is never read, so a bad `ha` raises nothing.
- The ASCII re-encoding on line 384 discards its result, so non-ASCII characters stay in the text.
- A single contour whose first x coordinate is exactly 0 is dropped (line 189). This holds for
  an unclipped contour and for a line whose intersection is a single part. It never holds
  for a clipped patch: ezdxf's `clip_polyline` returns a list of parts, so line 188 sees a
  vertex rather than a float and every part is drawn (`Emission.ClippedPatchParts`). Because of
  this, an unclipped square patch whose outline starts at (0, 0) draws nothing at all: no
  polyline, no fill and no hatch (`Renderer.SquareAtOriginDrawsNothing`).
- The patch polylines are open (`close=False`), so their fill hatches copy an open closed-flag.
  The hatch tiling's own boundaries use ezdxf's default, which is closed.
- In the hatch tiling, `clipped` is reassigned for every boundary polyline, so only the last
  boundary decides what a piece becomes (`HatchTiling.OnlyLastBoundaryCounts`).
- When `_map_align` raises inside `draw_text`, the TEXT entity has already been added. It stays
  in the modelspace, unplaced. An empty string raises `IndexError` on `s[0]` before anything is
  added.
- `draw_markers` reads the two innermost groups with `&`, which evaluates both sides, so it
  needs two open groups even when the innermost one is not "line2d".
- `draw_path_collection` draws every path with the first face colour and its master
  transform; offsets and per-path transforms are not used.

## Model

| member | source | states |
|---|---|---|
| Colors.RgbToDxf | mpldxf/backend_dxf.py:71-84 | definition of `rgb_to_dxf`; stated by NoColorIsWhite, BlackIsDrawnAsWhite, OtherColorsAreScaled and AlphaIsIgnored |
| Colors.NoColorIsWhite | mpldxf/backend_dxf.py:77-78 | no colour gives the palette's white |
| Colors.BlackIsDrawnAsWhite | mpldxf/backend_dxf.py:79-81 | a colour whose first three channels are all within 1e-8 of 0 gets the index nearest to (255, 255, 255), the same index as (1, 1, 1) |
| Colors.OtherColorsAreScaled | mpldxf/backend_dxf.py:82-83 | any other colour is looked up by its first three channels times 255 |
| Colors.AlphaIsIgnored | mpldxf/backend_dxf.py:71-84 | the alpha channel never changes the colour index |
| Clipping.StripNaN | mpldxf/backend_dxf.py:140-141 | keeps exactly the vertices with no NaN coordinate, never more than given |
| Clipping.StripNaNAppend | mpldxf/backend_dxf.py:140-141 | stripping distributes over concatenation, so the kept vertices stay in their order |
| Clipping.StripNaNKeepsFinite | mpldxf/backend_dxf.py:140-141 | a contour without NaN passes through unchanged |
| Clipping.StripNaNIdempotent | mpldxf/backend_dxf.py:140-141 | stripping twice is stripping once |
| Clipping.ShapeOf | mpldxf/backend_dxf.py:144-149 | a single vertex becomes a Point, anything else a LineString of the same vertices |
| Clipping.FromIntersection | mpldxf/backend_dxf.py:150-166 | a raised or empty intersection leaves no vertices, a single part gives its coordinates, a multi-part one gives one contour per part |
| Clipping.ClipPassthrough | mpldxf/backend_dxf.py:126-127 | without a clip rectangle, or for a kind other than patch and line2d, the vertices are returned unchanged |
| Clipping.ClipMpl | mpldxf/backend_dxf.py:124-168 | definition of `_clip_mpl`; its cases are stated by ClipPassthrough, PatchClipIsRectangleClip, LineClipDropsNaN, FailedIntersectionIsEmpty and MultiPartPreserved |
| Clipping.PatchClipIsRectangleClip | mpldxf/backend_dxf.py:135-138 | a patch's clip is always the rectangle clipper's list of parts, taken as it is, with its NaN vertices left in |
| Clipping.LineClipDropsNaN | mpldxf/backend_dxf.py:139-166 | a line is intersected as a NaN-free Point or LineString, a Point exactly when one finite vertex remains; removing NaN vertices first changes nothing |
| Clipping.FailedIntersectionIsEmpty | mpldxf/backend_dxf.py:150-157 | an intersection that raised or is empty leaves nothing to draw |
| Clipping.MultiPartPreserved | mpldxf/backend_dxf.py:158-163 | every part of a multi-part intersection is kept, in order, as its own contour |
| Entities.AsEntities | mpldxf/backend_dxf.py:197-202 | definition: one LWPOLYLINE per polyline, in order |
| Entities.PointsOf | mpldxf/backend_dxf.py:286-291 | definition: the boundary of each polyline is its points, in order |
| Emission.LwpolyLines | mpldxf/backend_dxf.py:170-203 | all polylines are open and in the stroke colour; no vertices give none; one contour gives one polyline with exactly its points iff it is non-empty and its first x is not 0; a list of parts (every clipped patch, or a multi-part line intersection) gives one polyline per part with that part's points |
| Emission.LwpolyDrawsNothing | mpldxf/backend_dxf.py:176-194 | nothing is drawn iff there are no vertices, the clip is empty, or a single contour starts at x = 0 |
| Emission.ClippedPatchParts | mpldxf/backend_dxf.py:135-202 | every clipped patch is drawn as one open polyline per part of the clipper's result, in order, even a part starting at x = 0 |
| Emission.UnclippedContour | mpldxf/backend_dxf.py:188-192 | without a clip, a contour whose first x is not 0 becomes one open polyline with exactly its vertices |
| Emission.FillHatches | mpldxf/backend_dxf.py:215-238 | definition: one hatch per polyline in the face colour, copying that polyline's points and closed flag and associated with its modelspace position |
| Emission.FillAssociation | mpldxf/backend_dxf.py:215-238 | after the polylines and fills are appended, the i-th fill points at the i-th polyline and has the same points |
| HatchTiling.GridSize | mpldxf/backend_dxf.py:256 | the number of tiles on each side is at least -1, and -1 exactly for a zero extent |
| HatchTiling.GridSizeIsCeiling | mpldxf/backend_dxf.py:256 | the size is ceil(extent / dpi) - 1: n tiles leave part of the extent uncovered, n + 1 cover it |
| HatchTiling.RowTilesShape | mpldxf/backend_dxf.py:275 | a row holds hi - lo tiles, exactly those of that row with lo <= icol < hi |
| HatchTiling.GridTilesCount | mpldxf/backend_dxf.py:274-275 | rows [lo, hi) hold (hi - lo)(2 cols + 1) tiles, none when cols is -1 |
| HatchTiling.GridTilesMembers | mpldxf/backend_dxf.py:274-275 | rows [lo, hi) hold exactly the tiles with lo <= irow < hi and abs(icol) <= cols |
| HatchTiling.TilesShape | mpldxf/backend_dxf.py:274-275 | the grid has (2 rows + 1)(2 cols + 1) tiles and holds exactly the offsets with abs(irow) <= rows and abs(icol) <= cols |
| HatchTiling.TileCountExample | mpldxf/backend_dxf.py:256-275 | a 300 x 150 pixel path at 100 dpi gets 2 columns and 1 row on each side, 15 tiles |
| HatchTiling.FlatPathHasNoTiles | mpldxf/backend_dxf.py:248-275 | a path with no width or no height gets no tile |
| HatchTiling.ClipByBoundaries | mpldxf/backend_dxf.py:284-298 | the boundary loop leaves the clip of the piece by the last boundary: a segment intersection for a two-vertex piece, the polygon clip otherwise |
| HatchTiling.HatchTile | mpldxf/backend_dxf.py:284-312 | the piece loop yields, in order, what each piece of a tile leaves after the boundary loop |
| HatchTiling.HatchRow | mpldxf/backend_dxf.py:275-312 | the `icol` loop yields the tiles of one row from -cols to cols, in order |
| HatchTiling.HatchGrid | mpldxf/backend_dxf.py:274-312 | the `irow` loop yields the rows from -rows to rows, in order |
| HatchTiling.HatchingFor | mpldxf/backend_dxf.py:245-270 | definition: the tiling uses the given boundaries and dpi and the hatch colour's index |
| HatchTiling.GridEntities | mpldxf/backend_dxf.py:274-312 | definition of the entities of a run of tiles; stated by GridEntitiesAppend, GridEntitiesAreHatchPieces and the two loop lemmas |
| HatchTiling.HatchEntities | mpldxf/backend_dxf.py:245-312 | definition of the tiling of a hatched path; stated by HatchEntitiesByRows, NoHatchNoEntities and OnlyLastBoundaryCounts |
| HatchTiling.HatchEntitiesByRows | mpldxf/backend_dxf.py:245-312 | with a hatch, the tiling is what the row loop yields for the grid sized from the path's extents |
| HatchTiling.PieceEntities | mpldxf/backend_dxf.py:303-312 | a piece adds at most one entity |
| HatchTiling.PiecesEntities | mpldxf/backend_dxf.py:284-312 | a tile adds at most one entity per piece |
| HatchTiling.ColsEntitiesAreGridEntities | mpldxf/backend_dxf.py:275-312 | drawing a row column by column emits that row's tiles in loop order |
| HatchTiling.RowsEntitiesAreGridEntities | mpldxf/backend_dxf.py:274-312 | drawing row by row emits the whole grid in loop order |
| HatchTiling.GridEntitiesAppend | mpldxf/backend_dxf.py:274-312 | tiling two runs of tiles emits their entities one after the other |
| HatchTiling.PiecesEntitiesAreHatchPieces | mpldxf/backend_dxf.py:303-312 | every entity of a tile is in the hatch colour and is an open polyline or a closed, unassociated hatch boundary |
| HatchTiling.GridEntitiesAreHatchPieces | mpldxf/backend_dxf.py:274-312 | the same for every entity of the whole tiling |
| HatchTiling.PieceKind | mpldxf/backend_dxf.py:303-312 | an empty clip adds nothing, a clipped two-vertex piece an open polyline of the clip, any other clipped piece a closed hatch of the clip |
| HatchTiling.PiecesUseLastBoundary | mpldxf/backend_dxf.py:284-298 | a tile's entities depend only on the last boundary |
| HatchTiling.OnlyLastBoundaryCounts | mpldxf/backend_dxf.py:284-312 | the whole tiling depends only on the last boundary polyline |
| HatchTiling.NoHatchNoEntities | mpldxf/backend_dxf.py:245-246 | a graphics context without a hatch adds nothing |
| TextCleanup.ReplaceMinus | mpldxf/backend_dxf.py:383 | every U+2212 becomes '-', all other characters stay in place |
| TextCleanup.CloseBrace | mpldxf/backend_dxf.py:386-387 | finds the first '}' after a position, unless a newline comes first (the non-greedy `.*?` does not cross lines) |
| TextCleanup.StripBold | mpldxf/backend_dxf.py:386-387 | never lengthens the text and adds no character; what it replaces is stated by StripBoldWrapper, StripBoldAfterPrefix and StripBoldUnclosed |
| TextCleanup.StripDollars | mpldxf/backend_dxf.py:388 | removes every '$' and keeps every other character; text without '$' is unchanged |
| TextCleanup.ReplaceThinSpace | mpldxf/backend_dxf.py:389 | adds no character but spaces; text without a backslash is unchanged; what it replaces is stated by ReplaceThinSpaceFirst and OtherBackslashKept |
| TextCleanup.ReplaceThinSpacePrefix | mpldxf/backend_dxf.py:389 | backslash-free text passes through and the scan goes on after it |
| TextCleanup.ReplaceThinSpaceAt | mpldxf/backend_dxf.py:389 | a leading `\/` becomes one space and the scan goes on after it |
| TextCleanup.ReplaceThinSpaceFirst | mpldxf/backend_dxf.py:389 | the first `\/` of a string, after backslash-free text a, becomes one space: a + `\/` + b gives a + " " + the replacement of b |
| TextCleanup.ReplaceThinSpaceHead | mpldxf/backend_dxf.py:389 | a first character other than a backslash is kept |
| TextCleanup.OtherBackslashKept | mpldxf/backend_dxf.py:389 | a backslash not followed by '/' is kept |
| TextCleanup.CleanText | mpldxf/backend_dxf.py:383-402 | fails exactly on the empty string; never keeps U+2212; a string starting with '$' loses every '$'; any other string only has its minus signs replaced |
| TextCleanup.PlainTextUnchanged | mpldxf/backend_dxf.py:396-402 | a non-empty string that does not start with '$' and has no U+2212 is written unchanged |
| TextCleanup.StripBoldWrapper | mpldxf/backend_dxf.py:386-387 | `\mathbf{x}` with no brace or newline in x becomes x |
| TextCleanup.UnclosedHead | mpldxf/backend_dxf.py:386-387 | at an unclosed `\mathbf{` the backslash is kept and the scan goes on from the next character |
| TextCleanup.StripBoldHead | mpldxf/backend_dxf.py:386-387 | where no closed wrapper starts, the first character is kept and the scan goes on |
| TextCleanup.StripBoldPrefix | mpldxf/backend_dxf.py:386-387 | backslash-free text passes through and the scan continues after it |
| TextCleanup.StripBoldAfterPrefix | mpldxf/backend_dxf.py:386-387 | a closed `\mathbf{x}` after backslash-free text p becomes x, and the scan goes on after its brace |
| TextCleanup.CloseBraceNone | mpldxf/backend_dxf.py:386-387 | the wrapper has no closing brace when the line or the string ends before any '}' |
| TextCleanup.StripBoldUnclosed | mpldxf/backend_dxf.py:386-387 | a `\mathbf{` with no '}' before the end of its line or of the string is kept as it is, and the scan goes on after it |
| TextCleanup.StripBoldNoBackslash | mpldxf/backend_dxf.py:386-387 | text without a backslash is left alone |
| TextCleanup.MathBoldStripped | mpldxf/backend_dxf.py:385-389 | `$\mathbf{x}$` with a plain x is written as x |
| TextCleanup.CleanMath | mpldxf/backend_dxf.py:383-389 | a string starting with '$' and without U+2212 is written as the bold, dollar and thin-space substitutions in that order |
| TextCleanup.StripBoldThinSpace | mpldxf/backend_dxf.py:386-387 | a `\/` is not a bold wrapper and survives the bold stripping |
| TextCleanup.StripBoldKeepsThinSpace | mpldxf/backend_dxf.py:386-387 | `$a\/b$` with backslash-free a and b is left alone by the bold stripping |
| TextCleanup.StripBoldInMath | mpldxf/backend_dxf.py:386-387 | `$p\mathbf{x}q$` loses its wrapper and keeps p, x and q |
| TextCleanup.StripDollarsEnclosed | mpldxf/backend_dxf.py:388 | `$a$` without other '$' becomes a |
| TextCleanup.CleanThinSpace | mpldxf/backend_dxf.py:383-402 | the text written for `$a\/b$` with plain a and b is "a b" |
| TextCleanup.CleanBoldAnywhere | mpldxf/backend_dxf.py:383-402 | the text written for `$p\mathbf{x}q$` with plain p, x and q is "pxq" |
| TextCleanup.StripDollarsAppend | mpldxf/backend_dxf.py:388 | removing '$' distributes over concatenation |
| TextCleanup.BoldFiveExample | mpldxf/backend_dxf.py:383-389 | `$\mathbf{5}$` is written as "5" |
| Alignment.MapAlign | mpldxf/backend_dxf.py:449-462 | succeeds iff the keyword is one of the eight known ones; the result is one of the seven mapped values, never CENTER vertically, and empty exactly for "baseline" |
| Alignment.MapAlignMatchesTable | mpldxf/backend_dxf.py:449-462 | the mapping agrees with the full keyword-by-keyword table and raises outside it |
| Alignment.AlignKey | mpldxf/backend_dxf.py:418-421 | definition of the "V_H" key; stated by AlignKeyRoundTrip and MappedKeyRoundTrip |
| Alignment.AlignKeyRoundTrip | mpldxf/backend_dxf.py:418-421 | the key "V_H" (or "H" when V is empty) can be split back into V and H when neither holds an underscore |
| Alignment.MappedKeyRoundTrip | mpldxf/backend_dxf.py:418-421 | every key built from mapped values is read back exactly, so the key loses nothing |
| Alignment.LookupAlignment | mpldxf/backend_dxf.py:424-439 | a key in the table gives the member of that name, any other key BOTTOM_LEFT |
| Alignment.LookupName | mpldxf/backend_dxf.py:424-437 | every one of the twelve members is reached by its own name |
| Alignment.ResolveAlignment | mpldxf/backend_dxf.py:408-439 | definition of the alignment of `draw_text`; stated by ResolveSucceeds, RotatedTextIgnoresHa and ResolveUsesBothKeywords |
| Alignment.ResolveSucceeds | mpldxf/backend_dxf.py:408-416 | the alignment resolves iff `va` is a keyword and `ha` is one or is not read (90 degrees, rotation mode not "anchor") |
| Alignment.RotatedTextIgnoresHa | mpldxf/backend_dxf.py:408-413 | at 90 degrees outside "anchor" mode the result does not depend on `ha` and uses RIGHT |
| Alignment.ResolveUsesBothKeywords | mpldxf/backend_dxf.py:414-421 | otherwise both keywords are mapped, joined into a key and looked up |
| Alignment.TopCenterExample | mpldxf/backend_dxf.py:414-439 | "center" over "top" is TOP_CENTER |
| Alignment.MiddleUnderscoreFallsBack | mpldxf/backend_dxf.py:418-439 | "baseline" over "center_baseline" builds "MIDDLE_", which falls back to BOTTOM_LEFT |
| Alignment.BareMiddleFallsBack | mpldxf/backend_dxf.py:418-439 | "center_baseline" over "baseline" builds "MIDDLE", which falls back to BOTTOM_LEFT |
| Alignment.RotatedExample | mpldxf/backend_dxf.py:408-439 | a 90-degree label in default mode is TOP_RIGHT under "top", whatever `ha` is |
| TextPlacement.FontHeight | mpldxf/backend_dxf.py:380 | the height is half the font size in pixels: 144 heights are the size in points times the dpi; never negative for a non-negative size |
| TextPlacement.DrawTextOutcome | mpldxf/backend_dxf.py:373-446 | no `mtext` does nothing; an empty string raises IndexError and adds nothing; otherwise exactly one TEXT in the stroke colour, at the angle and at half the pixel font size, whose content is the cleaned string; an unresolvable alignment raises after it was added; on success it is placed at the anchor with the resolved alignment |
| TextPlacement.TickLabelExample | mpldxf/backend_dxf.py:373-446 | a tick label `$\mathbf{5}$` centred under its tick becomes the TEXT "5" placed TOP_CENTER |
| Renderer.PatchEntities | mpldxf/backend_dxf.py:208-240 | a patch with no polyline adds nothing; otherwise the entities start with exactly its polylines, in order |
| Renderer.TilingHasNoFills | mpldxf/backend_dxf.py:303-312 | the hatch tiling adds no hatch associated with a polyline |
| Renderer.PatchFills | mpldxf/backend_dxf.py:208-240 | the associated hatches a patch adds are exactly one fill per polyline drawn when there is a face colour, and none without |
| Renderer.PatchNeedsAPolyline | mpldxf/backend_dxf.py:211-213 | a patch that draws no polyline adds nothing, not even a hatch |
| Renderer.SquareAtOriginDrawsNothing | mpldxf/backend_dxf.py:176-213 | an unclipped square whose outline starts at (0, 0) adds nothing |
| Renderer.FilledSquare | mpldxf/backend_dxf.py:208-240 | an unclipped, unhatched filled square elsewhere adds an open polyline in the stroke colour, then a fill in the face colour with the same points that points at that polyline |
| Renderer.AfterCollection | mpldxf/backend_dxf.py:330-337 | drawing a collection only appends to the modelspace |
| Renderer.CollectionFace | mpldxf/backend_dxf.py:332-335 | definition: the face colour is the first face colour if there is one, else none |
| Renderer.PathDispatch | mpldxf/backend_dxf.py:349-354 | a path is drawn as a patch iff the innermost group is "patch", as a line iff it is "line2d" |
| Renderer.Contains | mpldxf/backend_dxf.py:363 | definition of Python's `in` on strings; stated by ContainsInfix and ContainsIsInfix |
| Renderer.ContainsInfix | mpldxf/backend_dxf.py:363 | a string contains each of its infixes |
| Renderer.ContainsIsInfix | mpldxf/backend_dxf.py:363 | a string that contains a needle has it as an infix |
| Renderer.MarkersDrawn | mpldxf/backend_dxf.py:363 | markers are drawn iff the innermost group is "line2d" and the one around it has "tick" somewhere in its name |
| Renderer.TickLinesDrawMarkers | mpldxf/backend_dxf.py:363 | a "line2d" group inside any group whose name contains "tick" draws its markers, whatever groups are further out |
| Renderer.InitialHeader | mpldxf/backend_dxf.py:109-110 | definition: a fresh drawing's extents run from (0, 0, 0) to (width, height, 0) |
| Renderer.RendererDxf.constructor | mpldxf/backend_dxf.py:94-112 | stores size, resolution and DXF version; the drawing is empty, its extents are the page, and no group is open |
| Renderer.RendererDxf.Clear | mpldxf/backend_dxf.py:114-117 | a fresh, empty drawing with the page extents; the group stack is kept |
| Renderer.RendererDxf.OpenGroup | mpldxf/backend_dxf.py:464-466 | pushes the group name |
| Renderer.RendererDxf.CloseGroup | mpldxf/backend_dxf.py:468-469 | pops the innermost group, whatever name is given |
| Renderer.RendererDxf.DrawMplLwpoly | mpldxf/backend_dxf.py:170-203 | appends exactly the polylines of `LwpolyLines` and returns them |
| Renderer.RendererDxf.DrawMplLine2d | mpldxf/backend_dxf.py:205-206 | appends the polylines of the line's clip |
| Renderer.RendererDxf.DrawMplHatch | mpldxf/backend_dxf.py:242-312 | appends exactly the tiling `HatchEntities` for the path's extents |
| Renderer.RendererDxf.DrawFills | mpldxf/backend_dxf.py:215-238 | appends exactly one associated fill hatch per polyline, in order |
| Renderer.RendererDxf.DrawMplPatch | mpldxf/backend_dxf.py:208-240 | appends exactly `PatchEntities`: the polylines, their fills, then the tiling |
| Renderer.RendererDxf.DrawPathCollection | mpldxf/backend_dxf.py:314-337 | appends every path as a patch with the first face colour, in order |
| Renderer.RendererDxf.DrawPath | mpldxf/backend_dxf.py:339-354 | a patch under "patch", a line under "line2d", nothing under any other group |
| Renderer.RendererDxf.DrawMarkers | mpldxf/backend_dxf.py:357-367 | a tick line draws the marker placed at the first vertex, nothing is drawn otherwise |
| Renderer.RendererDxf.DrawText | mpldxf/backend_dxf.py:373-446 | appends what `DrawTextOutcome` adds and reports what it raises |
| Canvas.SameKeyKeepsRenderer | mpldxf/backend_dxf.py:502-506 | a renderer is kept iff the width, height and dpi are those it was made for |
| Canvas.FigureCanvasDxf.constructor | mpldxf/backend_dxf.py:501-504 | a new canvas has no renderer, so the first request makes one |
| Canvas.FigureCanvasDxf.GetDxfRenderer | mpldxf/backend_dxf.py:494-513 | a new key gives a fresh, empty renderer of that size and dpi with version AC1032; the same key gives the same renderer, emptied only when `cleared` is set |

## Left out

- I/O: `print_dxf`, writing the file, the backend's module-level registration, and the
  py2exe template path are not modelled.
- ezdxf itself is not modelled. `ezdxf.new` and the DXF version's effect on the file are
  left out; the drawing is its header extents and the list of entities appended. Entity
  attributes other than colour, points, closed flag, text height, rotation, placement and
  alignment are not modelled.
- The geometry libraries are parameters (`Geometry.Kernel`): ezdxf's `clip_polyline` and
  shapely's `intersection`. So is the clip of a hatch piece by a boundary. Line 296 builds a
  `ClippingRect2d` object there rather than a list of points. Its length test is ezdxf's
  business and is part of that parameter.
- The palette table (`dxf_colors`) is a parameter (`Colors.Palette`).
- The transforms are left out: `path.transformed`, `get_extents`, `Affine2D` and the hatch
  cell's `to_polygons`. Paths come already in device space, with their extents. The placed
  hatch cell is a parameter (`Geometry.CellPlacement`).
- Floating point is left out: coordinates are reals with NaN and infinities as separate
  values. Path extents are whole pixels, so `math.ceil` becomes integer division.
- HatchTiling.GridSize: works on whole-pixel extents, not on float extents.
- Line 181 is not modelled. `path.transformed(...).vertices` is an N x 2 float array, so
  line 177 always takes its first branch.
- The `IndexError` of line 188 on a multi-part clip whose first part is empty is not
  modelled. That part just gives an empty polyline.
- Renderer.RendererDxf.Clear: the `super().clear()` call on line 116 is taken to do nothing.
  If matplotlib's `RendererBase` has no `clear` method, that call raises `AttributeError`, and
  so does `get_dxf_renderer` with `cleared` set; the model does not capture that failure.
- Renderer.RendererDxf.DrawPath, Renderer.PathDispatch and Renderer.RendererDxf.CloseGroup:
  they require an open group. The source raises `IndexError` on an empty group stack (line
  349 for `draw_path`, line 469 for `close_group`); that error path is not modelled.
- The clip of a two-vertex hatch piece (`Geometry.Kernel.clipSegment`) is a total function.
  At line 294 the source can raise instead: `.coords` of a multi-part intersection, or a
  `Polygon` of a boundary with fewer than three vertices. Those uncaught exceptions are not
  modelled.
- Renderer.RendererDxf.DrawMarkers: the translation to the first marker position is done by
  the caller; `placed` is the marker path already moved. The `IndexError` on a marker path
  without vertices is not modelled.
- Renderer.MarkersDrawn and Renderer.RendererDxf.DrawMarkers: they require two open groups.
  Line 363 reads `self._groupd[-2]` through a non-short-circuit `&`, so the source raises
  `IndexError` on a group stack shorter than two; that error path is not modelled.
- Renderer.RendererDxf.DrawMplHatch: requires at least one boundary polyline. Every caller
  passes the non-empty list of polylines just drawn. The source would fail with `NameError`,
  or reuse a stale `clipped`, if the list were empty.
- When `_draw_mpl_lwpoly` returns a single LWPOLYLINE (an unclipped patch), the source iterates
  over that entity as the boundary list. Iterating an LWPOLYLINE yields point tuples, so
  `pline_obj.vertices()` at line 289 or 297 raises `AttributeError`: a hatched, unclipped patch
  fails in the source after its polyline and fills were added, while the model draws its
  tiling, taking the boundaries to be the polylines' points.
- The resolution is a positive integer (`Geometry.Dpi`). matplotlib's `figure.dpi` is a float;
  it feeds `points_to_pixels`, the `math.ceil(d / self.dpi)` of line 256 and the canvas key of
  line 500. Fractional resolutions are not modelled.
- Renderer.RendererDxf.DrawMplHatch: the loops compute the tiling's entities and the method
  appends them in one step. The source appends each entity as it is made, but it never reads
  the modelspace in between, so the resulting modelspace is the same.
- TextPlacement.FontHeight: `points_to_pixels` is the only unit conversion modelled.
- `draw_image` (which does nothing), `new_gc`, `flipy`, `get_canvas_width_height`,
  `_get_polyline_attribs` (inlined as the stroke colour) and `FigureCanvasDxf.draw` (which
  hands the figure to matplotlib) are not modelled.
- `get_dxf_renderer` reads the key from `figure.bbox` and `figure.dpi`. Here they are
  parameters.
