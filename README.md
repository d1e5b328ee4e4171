# Regions, tiling and full-page stitching

A model of two pieces of the Eyes PHP SDK:
- **the region type** (`Region`): a rectangle `(left, top, width, height)` with
  - emptiness, equality, containment and intersection,
  - in-place translation and intersection,
  - two policies that cut a container into tiles;
- **the full-page capture orchestrator** (`FullPageCaptureAlgorithm::getStitchedRegion`). In order, it:
  - resets the page to the top-left corner, retrying up to three times;
  - captures the first part and cuts it to the requested region;
  - decides from the content size whether one part is enough;
  - otherwise tiles the content with a part budget of `(w, max(h - 50, 10))`;
  - scrolls to every tile but the one at (0, 0) and places each part where the page actually scrolled to;
  - restores both providers' saved states;
  - trims the canvas to the extent actually stitched.

Files:
- `wrappers.dfy`: `Option` and `Result`.
- `geometry.dfy`:
  - `Location` and `RectangleSize`;
  - the value `Rect` with its queries, and each mutator's result as a function;
  - the class `Region`, whose methods update its four fields in place.
- `tiling.dfy`: the two tiling policies. Each is specified by recursive functions that follow the source's nested loops. Each is implemented by a method with those loops, proved to produce exactly the specified sequence.
- `stitching.dfy`: the orchestrator.
  - The collaborators are scripted values (`Collaborators`). That covers:
    - the positions read back while resetting;
    - the sizes of the captured images and of the parts cut from them;
    - the region in screenshot coordinates;
    - the entire size, or none when its lookup raises;
    - the position reached for each requested one.
  - Images are modelled by their sizes, and the canvas by the list of parts placed on it.
  - `GetStitchedRegion` returns its result together with the trace of state-changing calls and captures it made. The method is proved equal to the specification function `StitchedRegion`. The lemmas about that function state the exit paths, the save/restore pairing, the skip rule, the placement rule and the trim.

## Model

| member | source | states |
|---|---|---|
| Geometry.GetEmpty | eyes.common.php/src/main/php/com/applitools/eyes/Region.php:14-18 | the canonical empty region lies at the origin and has zero width and height |
| Geometry.Rect.IsEmpty | eyes.common.php/src/main/php/com/applitools/eyes/Region.php:65-71 | a region is empty exactly when all four fields equal those of the canonical empty region (0, 0, 0, 0) |
| Geometry.Rect.GetLocation | eyes.common.php/src/main/php/com/applitools/eyes/Region.php:99-104 | the location is the pair (left, top) |
| Geometry.Rect.GetSize | eyes.common.php/src/main/php/com/applitools/eyes/Region.php:120-123 | the size is the pair (width, height) |
| Geometry.Rect.Contains | eyes.common.php/src/main/php/com/applitools/eyes/Region.php:290-300 | defined as: the other region's top and left are at least this one's, and its bottom and right at most this one's, each compared inclusively |
| Geometry.Rect.IsIntersected | eyes.common.php/src/main/php/com/applitools/eyes/Region.php:321-335 | defined as: on each axis, one region's near edge lies between the other's near and far edges, inclusively, so touching edges count |
| Geometry.Rect.Intersection | eyes.common.php/src/main/php/com/applitools/eyes/Region.php:342-371 | defined as: the canonical empty region when the two do not intersect; otherwise the region from the larger near edges to the smaller far edges |
| Geometry.Rect.Make | eyes.common.php/src/main/php/com/applitools/eyes/Region.php:32-41 | construction from coordinates succeeds exactly when width and height are non-negative; a negative width is reported first (argument "width"), then a negative height ("height"); on success location and size are the inputs |
| Geometry.Rect.FromLocationSize | eyes.common.php/src/main/php/com/applitools/eyes/Region.php:42-50 | construction from a location and a size: `getLocation()` and `getSize()` return exactly the inputs |
| Geometry.LocationSizeRoundTrip | eyes.common.php/src/main/php/com/applitools/eyes/Region.php:99-123 | a region rebuilt from its own `getLocation()` and `getSize()` is the same region |
| Geometry.Rect.Offset | eyes.common.php/src/main/php/com/applitools/eyes/Region.php:110-114 | offsetting adds dx, dy to the location and keeps the size |
| Geometry.OffsetMovesPixels | eyes.common.php/src/main/php/com/applitools/eyes/Region.php:110-114 | an offset region holds pixel (x + dx, y + dy) exactly when the original holds (x, y) |
| Geometry.Rect.WithLocation | eyes.common.php/src/main/php/com/applitools/eyes/Region.php:129-134 | setting the location gives exactly the new location and keeps the size |
| Geometry.ContainsIsPreorder | eyes.common.php/src/main/php/com/applitools/eyes/Region.php:290-300 | with inclusive edge comparison every region contains itself, and containment is transitive |
| Geometry.ContainsMeansPixelInclusion | eyes.common.php/src/main/php/com/applitools/eyes/Region.php:290-300 | a contained region's pixels are all pixels of the container; for a region with at least one pixel the converse holds |
| Geometry.ContainsEmpty | eyes.common.php/src/main/php/com/applitools/eyes/Region.php:290-300 | a region contains the canonical empty region exactly when its closed bounding box holds the origin |
| Geometry.NonEmptyContainsEmpty | eyes.common.php/src/main/php/com/applitools/eyes/Region.php:290-300 | a non-empty region, (-5, -5, 10, 10), contains the canonical empty region |
| Geometry.IsIntersectedSymmetric | eyes.common.php/src/main/php/com/applitools/eyes/Region.php:321-335 | the intersection test does not depend on the order of its operands |
| Geometry.IsIntersectedIsClosedOverlap | eyes.common.php/src/main/php/com/applitools/eyes/Region.php:321-335 | the test holds exactly when, on both axes, the larger near edge does not pass the smaller far edge |
| Geometry.TouchingEdgesIntersect | eyes.common.php/src/main/php/com/applitools/eyes/Region.php:331-334 | (0,0,10,10) intersects (10,0,10,10) and (0,10,10,10), but not (11,0,10,10) |
| Geometry.IntersectionBounds | eyes.common.php/src/main/php/com/applitools/eyes/Region.php:342-371 | without intersection the result is the empty region; otherwise its left and top are the maxima, its right and bottom the minima of the operands', and both operands contain it |
| Geometry.IntersectionCommutes | eyes.common.php/src/main/php/com/applitools/eyes/Region.php:342-371 | the intersection is the same whichever operand is the receiver |
| Geometry.IntersectionIsGreatest | eyes.common.php/src/main/php/com/applitools/eyes/Region.php:342-371 | a region contained in both operands is contained in their intersection, and the operands then intersect |
| Geometry.IntersectionPixels | eyes.common.php/src/main/php/com/applitools/eyes/Region.php:342-371 | a pixel lies in the intersection exactly when it lies in both operands |
| Geometry.Region.constructor | eyes.common.php/src/main/php/com/applitools/eyes/Region.php:28-59 | the new region holds exactly the given value (coordinates, location and size, or a copy) |
| Geometry.Region.MakeEmpty | eyes.common.php/src/main/php/com/applitools/eyes/Region.php:20-26 | the receiver becomes (0, 0, 0, 0) and is empty |
| Geometry.Region.Offset | eyes.common.php/src/main/php/com/applitools/eyes/Region.php:110-114 | in place: the new value is the old one offset by dx, dy, and width and height are unchanged |
| Geometry.Region.SetLocation | eyes.common.php/src/main/php/com/applitools/eyes/Region.php:129-134 | in place: the new value has the given location, and width and height are unchanged |
| Geometry.Region.Intersect | eyes.common.php/src/main/php/com/applitools/eyes/Region.php:342-371 | in place: the new value is the intersection of the old value with the other operand's old value, also when the other operand is the receiver |
| Geometry.Region.Equals | eyes.common.php/src/main/php/com/applitools/eyes/Region.php:73-88 | false for null and for non-regions; otherwise true exactly when the four fields agree |
| Geometry.EqualsIsValueEquality | eyes.common.php/src/main/php/com/applitools/eyes/Region.php:73-88 | equality is reflexive and symmetric, never holds for null, and holds exactly when the values are equal |
| Tiling.VaryingRowShape | eyes.common.php/src/main/php/com/applitools/eyes/Region.php:234-247 | every tile of a varying-size row spans the row's top and bottom, stays between the start column and the container's right edge, and has width at most the budget's, narrower only when clipped at the right edge; the tiles are left to right without overlap |
| Tiling.VaryingRowsShape | eyes.common.php/src/main/php/com/applitools/eyes/Region.php:227-249 | every tile of the rows lies in the container and has a positive size within the budget, smaller than the budget only where clipped at the right or bottom edge; each tile lies wholly above or wholly left of every later one |
| Tiling.VaryingRowCovers | eyes.common.php/src/main/php/com/applitools/eyes/Region.php:234-247 | every column of the container from the start column on falls in some tile of the row |
| Tiling.VaryingRowsCover | eyes.common.php/src/main/php/com/applitools/eyes/Region.php:227-249 | every pixel of the container from the start row down lies in some tile |
| Tiling.VaryingTilesPartition | eyes.common.php/src/main/php/com/applitools/eyes/Region.php:209-251 | varying-size tiles lie in the container with positive size no larger than the budget; a tile is narrower than the budget only when its right edge is the container's, and shorter only when its bottom edge is; the tiles come in strict row-major order, are pairwise disjoint, and their union is exactly the container |
| Tiling.VaryingTilesFirstAtCorner | eyes.common.php/src/main/php/com/applitools/eyes/Region.php:223-244 | there are tiles exactly when the container has positive width and height; the first sits at the container's corner and no other does |
| Tiling.GetSubRegionsWithVaryingSize | eyes.common.php/src/main/php/com/applitools/eyes/Region.php:209-251 | raises the guard error for a zero budget width ("maxSubRegionSize.getWidth()"), then for a zero height ("maxSubRegionSize.getHeight()"); otherwise the two loops return exactly the specified varying-size tiles |
| Tiling.ClampedSize | eyes.common.php/src/main/php/com/applitools/eyes/Region.php:158-164 | the normalised tile size is no larger than the container or the requested size, and on each axis equals one of them |
| Tiling.FixedRowShape | eyes.common.php/src/main/php/com/applitools/eyes/Region.php:185-195 | every tile of a fixed-size row has exactly the tile size, lies between the container's left and right edges, and the row is in left-to-right order |
| Tiling.FixedRowsShape | eyes.common.php/src/main/php/com/applitools/eyes/Region.php:175-197 | every tile of the rows has exactly the tile size and lies in the container, and the tiles are in strict row-major order |
| Tiling.FixedRowCovers | eyes.common.php/src/main/php/com/applitools/eyes/Region.php:185-195 | every column of the container from the start column on falls in some tile of the row, the shifted-back one included |
| Tiling.FixedRowsCover | eyes.common.php/src/main/php/com/applitools/eyes/Region.php:175-197 | every pixel of the container from the start row down lies in some tile |
| Tiling.FixedTilesCover | eyes.common.php/src/main/php/com/applitools/eyes/Region.php:144-199 | a budget at least the container's size gives the single container; otherwise every tile has exactly the clamped size and lies in the container; tiles are in row-major order and their union is the container |
| Tiling.FixedEdgesSteps | eyes.common.php/src/main/php/com/applitools/eyes/Region.php:175-195 | along one axis the fixed-size policy's edges begin at the start position, advance by exactly the tile size, and only the last is shifted back so that its tile ends at the far edge, after the one before by at most one tile |
| Tiling.FixedTilesGrid | eyes.common.php/src/main/php/com/applitools/eyes/Region.php:175-197 | unless the container is returned whole, the fixed-size tiles are one tile of the clamped size at every pair of a row edge and a column edge, rows top to bottom and each row left to right; on both axes the edges start at the container's near edge, step by the tile size, and the last is shifted back flush with the far edge; a container with no pixels gives no tiles |
| Tiling.TilingExamples | eyes.common.php/src/main/php/com/applitools/eyes/Region.php:175-247 | the varying-size tiles of (0, 0, 2, 1) with budget (2, 1) are just (0, 0, 2, 1); the fixed-size tiles of (0, 0, 5, 1) with size (2, 1) start at columns 0, 2 and 3 |
| Tiling.GetSubRegionsWithFixedSize | eyes.common.php/src/main/php/com/applitools/eyes/Region.php:144-199 | raises the guard error for a zero width ("subRegionSize width"), then for a zero height ("subRegionSize height"); otherwise the loops return exactly the specified fixed-size tiles |
| Tiling.FixedSizeRow | eyes.common.php/src/main/php/com/applitools/eyes/Region.php:185-195 | the inner loop returns exactly the specified fixed-size row, last tile shifted back flush with the right edge |
| Tiling.GetSubRegions | eyes.common.php/src/main/php/com/applitools/eyes/Region.php:265-272 | dispatches on `isFixedSize`: success exactly for a positive size, with the fixed-size or the varying-size tiles, and the chosen policy's guard error otherwise |
| Stitching.ResetAttempts | eyes.selenium.php/src/main/php/com/applitools/eyes/selenium/FullPageCaptureAlgorithm.php:56-64 | between one and three attempts; every attempt before the last read back two non-zero coordinates; fewer than three means the last one read back a zero coordinate |
| Stitching.ResetToOrigin | eyes.selenium.php/src/main/php/com/applitools/eyes/selenium/FullPageCaptureAlgorithm.php:56-64 | the do-while loop makes exactly the specified number of attempts, ends on the position read back after the last one, and calls `setPosition((0, 0))` once per attempt |
| Stitching.RetriesStopWhenEitherCoordinateIsZero | eyes.selenium.php/src/main/php/com/applitools/eyes/selenium/FullPageCaptureAlgorithm.php:62-64 | a read-back of (0, 7) ends the retries after one attempt, and the reset fails although the next attempt would have reached (0, 0) |
| Stitching.StuckProviderIsAskedThreeTimes | eyes.selenium.php/src/main/php/com/applitools/eyes/selenium/FullPageCaptureAlgorithm.php:56-70 | a provider stuck at (5, 5) is asked three times and the reset fails |
| Stitching.CropRegion | eyes.selenium.php/src/main/php/com/applitools/eyes/selenium/FullPageCaptureAlgorithm.php:96-98 | the region clamped by intersection always lies within the first image's bounds |
| Stitching.CropRegionPixels | eyes.selenium.php/src/main/php/com/applitools/eyes/selenium/FullPageCaptureAlgorithm.php:96-98 | the clamped region's pixels are exactly the requested region's pixels that the image has |
| Stitching.CutToRegion | eyes.selenium.php/src/main/php/com/applitools/eyes/selenium/FullPageCaptureAlgorithm.php:101-103 | a capture is cut to the crop region only when that region is non-empty, and left whole otherwise |
| Stitching.CaptureFirstPart | eyes.selenium.php/src/main/php/com/applitools/eyes/selenium/FullPageCaptureAlgorithm.php:73-103 | intersecting the requested region with the image's bounds in place and cutting gives the specified crop region and first part |
| Stitching.ContentSize | eyes.selenium.php/src/main/php/com/applitools/eyes/selenium/FullPageCaptureAlgorithm.php:105-115 | the entire size reported by the provider, or the first part's size when that lookup raises |
| Stitching.PartImageSize | eyes.selenium.php/src/main/php/com/applitools/eyes/selenium/FullPageCaptureAlgorithm.php:132-135 | the part budget keeps the first part's width; its height is at least 10 and at least h - 50, and equals one of them |
| Stitching.NonOriginTilesMembers | eyes.selenium.php/src/main/php/com/applitools/eyes/selenium/FullPageCaptureAlgorithm.php:170-174 | the loop captures exactly the tiles whose left and top are not both 0 |
| Stitching.CaptureParts | eyes.selenium.php/src/main/php/com/applitools/eyes/selenium/FullPageCaptureAlgorithm.php:160-215 | the loop over the tiles skips the tile at (0, 0), scrolls to and captures every other one, and places each part at the position read back; the last successful location and part size are those of the last part placed, or (0, first height) and the first part's size when none was |
| Stitching.PartPlacementsAt | eyes.selenium.php/src/main/php/com/applitools/eyes/selenium/FullPageCaptureAlgorithm.php:178-209 | the k-th part is placed at the position read back after scrolling to the k-th captured tile, with the size of capture k + 1 |
| Stitching.ProgressParts | eyes.selenium.php/src/main/php/com/applitools/eyes/selenium/FullPageCaptureAlgorithm.php:170-210 | after any prefix of the tiles the loop has placed exactly the parts of that prefix's tiles not at (0, 0) |
| Stitching.ProgressCalls | eyes.selenium.php/src/main/php/com/applitools/eyes/selenium/FullPageCaptureAlgorithm.php:170-210 | after any prefix of the tiles the loop has scrolled to and captured exactly that prefix's tiles not at (0, 0), in order |
| Stitching.ProgressLast | eyes.selenium.php/src/main/php/com/applitools/eyes/selenium/FullPageCaptureAlgorithm.php:160-215 | the last successful location follows the last placement; a last part exists exactly when a part was placed, and it is that part |
| Stitching.Trim | eyes.selenium.php/src/main/php/com/applitools/eyes/selenium/FullPageCaptureAlgorithm.php:224-238 | the canvas is left untrimmed exactly when the stitched extent reaches it in both dimensions; otherwise it is trimmed to (0, 0, extent), and a negative extent raises the region guard instead, naming the width when it is negative and the height otherwise |
| Stitching.GetStitchedRegion | eyes.selenium.php/src/main/php/com/applitools/eyes/selenium/FullPageCaptureAlgorithm.php:37-240 | the method returns exactly the specified outcome and call trace on each of its exits |
| Stitching.StitchParts | eyes.selenium.php/src/main/php/com/applitools/eyes/selenium/FullPageCaptureAlgorithm.php:148-239 | the stitching phase saves the position state, makes the parts' calls, restores the position state and then the origin state, and returns the trimmed canvas or the trim's guard error |
| Stitching.OutcomeCases | eyes.selenium.php/src/main/php/com/applitools/eyes/selenium/FullPageCaptureAlgorithm.php:66-156 | the run fails to reach the origin exactly when the reset fails; returns the single part exactly when it covers the content; stitches exactly when neither holds, the part has width and the trim succeeds; a stitched canvas has the content size and the first part at (0, 0) |
| Stitching.ResetComesFirst | eyes.selenium.php/src/main/php/com/applitools/eyes/selenium/FullPageCaptureAlgorithm.php:54-64 | every run begins with the origin state's save and the reset attempts, and sets the origin provider's position exactly once per attempt, at most three times |
| Stitching.OriginRestoredOnExit | eyes.selenium.php/src/main/php/com/applitools/eyes/selenium/FullPageCaptureAlgorithm.php:66-219 | on every exit but the tiling guard's, the last call restores the saved origin state and it is restored exactly once; a run that stitches saves the position state and restores it just before |
| Stitching.PositionStatePaired | eyes.selenium.php/src/main/php/com/applitools/eyes/selenium/FullPageCaptureAlgorithm.php:164-219 | a run that stitches saves the position provider's state exactly once and restores it exactly once; a run that does not stitch makes no call on the position provider |
| Stitching.TilingGuardLeavesStateUnrestored | eyes.selenium.php/src/main/php/com/applitools/eyes/selenium/FullPageCaptureAlgorithm.php:132-144 | a zero-width first part makes the tiling guard raise with no restore of the origin state |
| Stitching.NonOriginTilesAfterCorner | eyes.selenium.php/src/main/php/com/applitools/eyes/selenium/FullPageCaptureAlgorithm.php:170-174 | when only the first tile is at (0, 0), the loop captures exactly the remaining tiles |
| Stitching.OnlyTheFirstTileIsSkipped | eyes.selenium.php/src/main/php/com/applitools/eyes/selenium/FullPageCaptureAlgorithm.php:142-174 | the content has tiles exactly when its size is positive in both dimensions, and then the loop skips only the first tile |
| Stitching.PlacementsFollowTiles | eyes.selenium.php/src/main/php/com/applitools/eyes/selenium/FullPageCaptureAlgorithm.php:152-209 | with exact scrolling, the k-th placement is at the k-th tile's corner |
| Stitching.PartsLandOnTheirTiles | eyes.selenium.php/src/main/php/com/applitools/eyes/selenium/FullPageCaptureAlgorithm.php:132-210 | with exact scrolling, one part is placed per tile at that tile's corner, and the tiles are disjoint and cover the canvas |

## Left out

- Pixel operations are not modelled: image creation, `merge`, `ImageUtils::getImagePart`, scaling and cutting. Images are sizes, and the canvas is the list of placements. The part cut to a region is a scripted size (`imagePart`). The scale and cut providers are folded into the scripted image sizes (`images`).
- `convertRegionLocation` and the region provider are not modelled. The region in screenshot coordinates is an input.
- `getCurrentPosition` during stitching is a function of the requested location (`reached`). A provider whose read-back depends on time or on history is not modelled.
- Stabilisation waits (`GeneralUtils::sleep`) and all logging are left out.
- The fallback for a failing `getEntireSize` raises in the source before it takes effect. Its first log line adds two strings with `+`, and its second calls `getWidth()` on `$this->image`, a property the class never declares (FullPageCaptureAlgorithm.php:110-113). Either error escapes the catch block, and the origin state is not restored. `ContentSize` models the intended fallback, the first part's size, and not these errors.
- Exceptions from `getImage`, `setPosition`, `getState` and `restoreState` are not modelled. The source has no handler for them, so they propagate without restoring state. Only `getEntireSize` is modelled as raising, and the model then takes the fallback the source intends (see the line above).
- `Region::getMiddleOffset` is not modelled, because it divides into floating point. `hashCode` mixes string concatenation with addition, and `toString` only formats text; neither is modelled.
- `getLeft`, `getTop`, `getWidth` and `getHeight` are not separate members; they are the fields of `Rect`.
- `getEmpty` rebuilds a static region on each call, and `makeEmpty` reads that static. Both are modelled through the function `GetEmpty`, which always gives (0, 0, 0, 0), so `makeEmpty` does not depend on `getEmpty` having been called first.
- Null constructor arguments are out of the model. A region whose fields are never assigned does not exist in it, and neither does the copy branch's `==!` test. Widths and heights are `nat`, so the guard at Region.php:33-34 is modelled only in `Rect.Make`.
- PHP-level breakage is replaced by the evidently intended algorithm:
  - The varying-size list at Region.php:220 starts with an all-null `new Region()`. The model leaves that placeholder out. In the orchestrator, the `(0, 0)` skip at FullPageCaptureAlgorithm.php:172 discards it anyway.
  - `->add` is called on a plain array at Region.php:171 and 191, and `getSubRegions` calls the fixed-size policy as a free function at Region.php:268. Both are modelled as appending to the list and calling the static method.
- Helper methods with no counterpart in the source: `Tiling.FixedSizeRow` is the inner loop of the fixed-size policy. `Stitching.CaptureFirstPart`, `Stitching.CaptureParts` and `Stitching.StitchParts` are consecutive stretches of `getStitchedRegion`'s body. The order of the calls they make is unchanged.
- Where the code departs from the evidently intended behaviour, the model follows the code:
  - The retry loop continues only while both coordinates read back non-zero (`x != 0 && y != 0`). So it stops after an attempt that reads back one zero coordinate, and the reset then fails. The intended behaviour is to retry until the position reads back (0, 0).
  - The tiling guard raises for a zero-width first part after the origin reset, without restoring the origin provider's state. The intended behaviour is to restore the saved scroll state on every exit.
- `contains` compares edges inclusively, so the canonical empty region is contained in every region whose closed box holds the origin, not only in the empty region itself (`Geometry.ContainsEmpty`, `Geometry.NonEmptyContainsEmpty`).
