/**
 * The full-page capture orchestrator, `FullPageCaptureAlgorithm::getStitchedRegion`.
 *
 * The collaborators are scripted: the answers of the position providers, the
 * sizes of the captured images and of the image parts cut from them are
 * inputs (`Collaborators`). Images are modelled by their dimensions only, and
 * the stitched canvas by the list of parts placed on it. Every call that
 * saves, changes or restores a provider's state, and every capture, is
 * recorded in the returned call trace, in order.
 */
module Stitching {
  import opened Wrappers
  import opened Geometry
  import opened Tiling

  /** Height reserved at the bottom of every part for scroll bars and fixed footers. */
  const MaxScrollBarSize: nat := 50

  /** The smallest height a part may be given. */
  const MinScreenshotPartHeight: nat := 10

  /** How many times the origin reset is attempted. */
  const SetPositionRetries: nat := 3

  /** The two position providers: the one scrolled to the origin first, and the one that scrolls between parts. */
  datatype Provider = OriginProvider | PositionProvider

  /** A call on a collaborator that saves, changes or restores state, or captures an image. */
  datatype Call =
    | GetState(provider: Provider)
    | SetPosition(provider: Provider, location: Location)
    | RestoreState(provider: Provider, state: int)
      /** One `getImage`, followed by `scaleImage` and `cut`. */
    | GetImage

  /** The scripted behaviour of the collaborators. */
  datatype Collaborators = Collaborators(
    /** What `originProvider.getState()` returns. */
    originState: int,
    /** What `originProvider.getCurrentPosition()` answers after the n-th attempt (from 0) to reach the origin. */
    originPositions: nat -> Location,
    /** The size of the n-th captured image (from 0), after scaling and cutting. */
    images: nat -> RectangleSize,
    /** The region to stitch, already converted to screenshot coordinates. */
    regionInScreenshot: Rect,
    /** The size of `ImageUtils::getImagePart(image, region)`, given the image's size. */
    imagePart: (RectangleSize, Rect) -> RectangleSize,
    /** What `positionProvider.getEntireSize()` returns; None when it raises. */
    entireSize: Option<RectangleSize>,
    /** What `positionProvider.getState()` returns. */
    positionState: int,
    /** The position `positionProvider.getCurrentPosition()` reads back after `setPosition(p)`. */
    reached: Location -> Location
  )

  /** An image of the given size merged into the canvas at the given location. */
  datatype Placement = Placement(location: Location, size: RectangleSize)

  /** The image `getStitchedRegion` returns. */
  datatype Stitched =
      /** The single (cropped) capture, returned unchanged. */
    | Unstitched(crop: Rect, image: RectangleSize)
      /** A canvas of the content size with the parts merged into it, possibly trimmed to `trim`. */
    | Composite(crop: Rect, canvas: RectangleSize, placements: seq<Placement>, trim: Option<Rect>)

  /** The failures `getStitchedRegion` lets escape. */
  datatype CaptureError =
      /** `EyesException`: the origin provider could not be moved to the top-left corner. */
    | OriginNotReached
      /** An `ArgumentGuard` violation raised by a region or tiling operation. */
    | InvalidArgument(error: ArgumentError)

  // ---------------------------------------------------------------------
  // Resetting the origin
  // ---------------------------------------------------------------------

  /** The retry loop's guard: it goes on only while both coordinates read back non-zero. */
  predicate KeepsRetrying(p: Location) {
    p.x != 0 && p.y != 0
  }

  /** The check after the loop: success needs both coordinates zero. */
  predicate AtOrigin(p: Location) {
    p.x == 0 && p.y == 0
  }

  /**
   * The number of `setPosition((0, 0))` attempts: an attempt is repeated only
   * while both coordinates read back non-zero, and at most three are made.
   */
  function ResetAttempts(positions: nat -> Location): (n: nat)
    ensures 1 <= n <= SetPositionRetries
    ensures forall i :: 0 <= i < n - 1 ==> KeepsRetrying(positions(i))
    ensures n < SetPositionRetries ==> !KeepsRetrying(positions(n - 1))
  {
    if !KeepsRetrying(positions(0)) then 1
    else if !KeepsRetrying(positions(1)) then 2
    else 3
  }

  /** `n` copies of call `c`. */
  function Repeat(c: Call, n: nat): (s: seq<Call>)
    ensures |s| == n && forall i :: 0 <= i < n ==> s[i] == c
  {
    seq(n, _ => c)
  }

  /**
   * The retry loop: `setPosition((0, 0))`, read the position back, and go on
   * while both coordinates are non-zero and the retries (3) are not used up.
   */
  method ResetToOrigin(positions: nat -> Location) returns (attempts: nat, position: Location, calls: seq<Call>)
    ensures attempts == ResetAttempts(positions)
    ensures position == positions(attempts - 1)
    ensures calls == Repeat(SetPosition(OriginProvider, Zero), attempts)
  {
    var setPositionRetries := SetPositionRetries;
    calls := [SetPosition(OriginProvider, Zero)];
    position := positions(0);
    attempts := 1;
    // The source's do-while guard decrements the counter only when both
    // coordinates are non-zero, so the decrement happens at the top of the body.
    while KeepsRetrying(position) && setPositionRetries - 1 > 0
      invariant 1 <= attempts <= SetPositionRetries
      invariant attempts + setPositionRetries == SetPositionRetries + 1
      invariant position == positions(attempts - 1)
      invariant forall i :: 0 <= i < attempts - 1 ==> KeepsRetrying(positions(i))
      invariant calls == Repeat(SetPosition(OriginProvider, Zero), attempts)
      decreases setPositionRetries
    {
      setPositionRetries := setPositionRetries - 1;
      calls := calls + [SetPosition(OriginProvider, Zero)];
      position := positions(attempts);
      attempts := attempts + 1;
    }
  }

  /** A position read back with one coordinate zero ends the retries at once, even if the next attempt would succeed. */
  lemma RetriesStopWhenEitherCoordinateIsZero(positions: nat -> Location)
    requires positions(0) == Location(0, 7) && positions(1) == Zero
    ensures ResetAttempts(positions) == 1 && !AtOrigin(positions(ResetAttempts(positions) - 1))
  {
  }

  /** A provider that never leaves (5, 5) is asked three times. */
  lemma StuckProviderIsAskedThreeTimes(positions: nat -> Location)
    requires forall i :: positions(i) == Location(5, 5)
    ensures ResetAttempts(positions) == 3 && !AtOrigin(positions(2))
  {
  }

  /** The origin provider's calls up to the end of the origin reset. */
  function ResetCalls(env: Collaborators): seq<Call> {
    [GetState(OriginProvider)] + Repeat(SetPosition(OriginProvider, Zero), ResetAttempts(env.originPositions))
  }

  /** Whether the position read back after the last attempt is the origin. */
  predicate OriginReached(env: Collaborators) {
    AtOrigin(env.originPositions(ResetAttempts(env.originPositions) - 1))
  }

  // ---------------------------------------------------------------------
  // The first part, the crop region and the content size
  // ---------------------------------------------------------------------

  /** The bounding box of an image of size `s`, anchored at the origin. */
  function Bounds(s: RectangleSize): (r: Rect)
    ensures r.GetLocation() == Zero && r.GetSize() == s
  {
    Rect.FromLocationSize(Zero, s)
  }

  /**
   * The region in the screenshot clamped to the first image: it always lies
   * within the image, and its pixels are those of the requested region that
   * the image has.
   */
  function CropRegion(env: Collaborators): (r: Rect)
    ensures Bounds(env.images(0)).Contains(r)
  {
    var image := Bounds(env.images(0));
    IntersectionBounds(env.regionInScreenshot, image);
    ContainsEmpty(image);
    env.regionInScreenshot.Intersection(image)
  }

  /** The crop region's pixels are those of the requested region that the first image has. */
  lemma CropRegionPixels(env: Collaborators)
    ensures forall x, y :: CropRegion(env).HasPixel(x, y) <==>
              env.regionInScreenshot.HasPixel(x, y) && Bounds(env.images(0)).HasPixel(x, y)
  {
    forall x, y
      ensures CropRegion(env).HasPixel(x, y) <==>
                env.regionInScreenshot.HasPixel(x, y) && Bounds(env.images(0)).HasPixel(x, y)
    {
      IntersectionPixels(env.regionInScreenshot, Bounds(env.images(0)), x, y);
    }
  }

  /** The size of the n-th captured image once cut to the crop region (left whole when that region is empty). */
  function Capture(env: Collaborators, n: nat): RectangleSize {
    var crop := CropRegion(env);
    if crop.IsEmpty() then env.images(n) else env.imagePart(env.images(n), crop)
  }

  /** The content size: the provider's entire size, or the first part's size when that lookup raises. */
  function ContentSize(env: Collaborators): (s: RectangleSize)
    ensures env.entireSize.Some? ==> s == env.entireSize.value
    ensures env.entireSize.None? ==> s == Capture(env, 0)
  {
    env.entireSize.GetOr(Capture(env, 0))
  }

  /** Whether an image of size `image` covers content of size `content` in both dimensions. */
  predicate Covers(image: RectangleSize, content: RectangleSize) {
    image.width >= content.width && image.height >= content.height
  }

  /**
   * The budget for every further part: the first part's width, and its
   * height less the scroll-bar margin but never below the minimum part
   * height (`max(h - 50, 10)`).
   */
  function PartImageSize(image: RectangleSize): (s: RectangleSize)
    ensures s.width == image.width
    ensures s.height >= MinScreenshotPartHeight && s.height >= image.height - MaxScrollBarSize
    ensures s.height == MinScreenshotPartHeight || s.height == image.height - MaxScrollBarSize
  {
    var h := image.height - MaxScrollBarSize;
    RectangleSize(image.width, if h >= MinScreenshotPartHeight then h else MinScreenshotPartHeight)
  }

  /** The tiles of the content, anchored at the origin, cut with the varying-size policy and the part budget. */
  function ContentTiles(env: Collaborators): seq<Rect>
    requires Capture(env, 0).width > 0
  {
    VaryingTiles(Bounds(ContentSize(env)), PartImageSize(Capture(env, 0)))
  }

  // ---------------------------------------------------------------------
  // The parts
  // ---------------------------------------------------------------------

  /** The skip rule: a tile at (0, 0) has already been captured. */
  predicate IsAtOrigin(t: Rect) {
    t.left == 0 && t.top == 0
  }

  /** The tiles the loop captures, in order: all but those at (0, 0). */
  function NonOriginTiles(tiles: seq<Rect>): (r: seq<Rect>)
    ensures |r| <= |tiles|
  {
    if |tiles| == 0 then []
    else
      var last := tiles[|tiles| - 1];
      NonOriginTiles(tiles[..|tiles| - 1]) + if IsAtOrigin(last) then [] else [last]
  }

  /** The loop captures exactly the tiles not at (0, 0). */
  lemma {:induction false} NonOriginTilesMembers(tiles: seq<Rect>)
    ensures forall t :: t in NonOriginTiles(tiles) <==> t in tiles && !IsAtOrigin(t)
  {
    if |tiles| > 0 {
      var front := tiles[..|tiles| - 1];
      NonOriginTilesMembers(front);
      assert tiles == front + [tiles[|tiles| - 1]];
    }
  }

  /**
   * Where the loop places the parts for `tiles`: the k-th at the position read
   * back after scrolling to its tile, with the size of capture k + 1.
   */
  function PartPlacements(env: Collaborators, tiles: seq<Rect>): (r: seq<Placement>)
    ensures |r| == |tiles|
  {
    if |tiles| == 0 then []
    else
      var last := tiles[|tiles| - 1];
      PartPlacements(env, tiles[..|tiles| - 1]) + [Placement(env.reached(last.GetLocation()), Capture(env, |tiles|))]
  }

  /** The calls the loop makes for `tiles`: scroll to each tile's top-left corner, then capture. */
  function PartCalls(tiles: seq<Rect>): (r: seq<Call>)
    ensures |r| == 2 * |tiles|
  {
    if |tiles| == 0 then []
    else PartCalls(tiles[..|tiles| - 1]) + [SetPosition(PositionProvider, tiles[|tiles| - 1].GetLocation()), GetImage]
  }

  /** All parts on the canvas: the first capture at (0, 0), then the loop's parts. */
  function Placements(env: Collaborators): seq<Placement>
    requires Capture(env, 0).width > 0
  {
    [Placement(Zero, Capture(env, 0))] + PartPlacements(env, NonOriginTiles(ContentTiles(env)))
  }

  // ---------------------------------------------------------------------
  // Trimming
  // ---------------------------------------------------------------------

  /**
   * The last successful location: (0, height of the first part) until a part
   * is taken, then the position read back for the last part.
   */
  function LastLocation(first: RectangleSize, parts: seq<Placement>): Location {
    if |parts| == 0 then Location(0, first.height) else parts[|parts| - 1].location
  }

  /** The last part's size: the first part's until a part is taken. */
  function LastPartSize(first: RectangleSize, parts: seq<Placement>): RectangleSize {
    if |parts| == 0 then first else parts[|parts| - 1].size
  }

  /**
   * Trimming: the stitched extent is the last location plus the last part's
   * size; the canvas is cropped to `(0, 0, extent)` only when the extent is
   * smaller than the canvas in some dimension, and that crop region's
   * construction guard rejects a negative extent.
   */
  function Trim(canvas: RectangleSize, last: Location, lastSize: RectangleSize): (r: Result<Option<Rect>, ArgumentError>)
    ensures var w, h := last.x + lastSize.width, last.y + lastSize.height;
            && (r == Success(None) <==> w >= canvas.width && h >= canvas.height)
            && (r.Success? && r.value.Some? <==> (w < canvas.width || h < canvas.height) && w >= 0 && h >= 0)
            && (r.Success? && r.value.Some? ==> r.value.value == Rect.FromLocationSize(Zero, RectangleSize(w, h)))
            && (r.Failure? ==> r.error == if w < 0 then ArgumentError("width") else ArgumentError("height"))
  {
    var actualImageWidth := last.x + lastSize.width;
    var actualImageHeight := last.y + lastSize.height;
    if actualImageWidth < canvas.width || actualImageHeight < canvas.height then
      match Rect.Make(0, 0, actualImageWidth, actualImageHeight)
      case Success(region) => Success(Some(region))
      case Failure(e) => Failure(e)
    else
      Success(None)
  }

  // ---------------------------------------------------------------------
  // The orchestrator
  // ---------------------------------------------------------------------

  /** The calls of the stitching phase: save the position provider's state, the parts, then both restores. */
  function StitchPhaseCalls(env: Collaborators, tiles: seq<Rect>): seq<Call> {
    [GetState(PositionProvider)] + PartCalls(NonOriginTiles(tiles))
    + [RestoreState(PositionProvider, env.positionState), RestoreState(OriginProvider, env.originState)]
  }

  /** The calls of a run that stitches: reset, first capture, then the stitching phase. */
  function StitchCalls(env: Collaborators): seq<Call>
    requires Capture(env, 0).width > 0
  {
    ResetCalls(env) + [GetImage] + StitchPhaseCalls(env, ContentTiles(env))
  }

  /** The trim of a run that stitches. */
  function StitchTrim(env: Collaborators): Result<Option<Rect>, ArgumentError>
    requires Capture(env, 0).width > 0
  {
    var parts := PartPlacements(env, NonOriginTiles(ContentTiles(env)));
    Trim(ContentSize(env), LastLocation(Capture(env, 0), parts), LastPartSize(Capture(env, 0), parts))
  }

  /** How many times call `c` occurs in `calls`. */
  function CountOf(calls: seq<Call>, c: Call): nat {
    if |calls| == 0 then 0
    else CountOf(calls[..|calls| - 1], c) + if calls[|calls| - 1] == c then 1 else 0
  }

  /** What a run of `getStitchedRegion` returns or raises, with the calls it makes. */
  datatype Outcome = Outcome(result: Result<Stitched, CaptureError>, calls: seq<Call>)

  /** The error the tiling guard raises for a zero-width part budget. */
  const ZeroWidthBudget: ArgumentError := ArgumentError("maxSubRegionSize.getWidth()")

  /**
   * The outcome of `getStitchedRegion`, one case per exit:
   * - the origin is not reached: the origin state is restored and the reset fails;
   * - the cropped first capture covers the content: the origin state is restored
   *   and that capture returned;
   * - a zero-width first capture: the tiling guard raises, and no state is restored;
   * - otherwise the content is stitched, both states are restored (position
   *   provider first) and the canvas trimmed; a negative trim extent raises.
   */
  function StitchedRegion(env: Collaborators): Outcome {
    if !OriginReached(env) then
      Outcome(Failure(OriginNotReached), ResetCalls(env) + [RestoreState(OriginProvider, env.originState)])
    else if Covers(Capture(env, 0), ContentSize(env)) then
      Outcome(Success(Unstitched(CropRegion(env), Capture(env, 0))),
              ResetCalls(env) + [GetImage, RestoreState(OriginProvider, env.originState)])
    else if Capture(env, 0).width == 0 then
      Outcome(Failure(InvalidArgument(ZeroWidthBudget)), ResetCalls(env) + [GetImage])
    else
      Outcome(StitchResult(env), StitchCalls(env))
  }

  /** The result of a run that stitches: the canvas with its placements and trim, or the trim's construction error. */
  function StitchResult(env: Collaborators): Result<Stitched, CaptureError>
    requires Capture(env, 0).width > 0
  {
    match StitchTrim(env)
    case Success(trim) => Success(Composite(CropRegion(env), ContentSize(env), Placements(env), trim))
    case Failure(e) => Failure(InvalidArgument(e))
  }

  /**
   * `getStitchedRegion`: saves the origin provider's state and resets it to
   * (0, 0), captures the first part cut to the requested region, and either
   * returns it or scrolls through the content's tiles, places every part on a
   * canvas, restores both states and trims the canvas.
   */
  method GetStitchedRegion(env: Collaborators) returns (result: Result<Stitched, CaptureError>, calls: seq<Call>)
    ensures Outcome(result, calls) == StitchedRegion(env)
  {
    calls := [GetState(OriginProvider)];
    var attempts, currentPosition, resetCalls := ResetToOrigin(env.originPositions);
    calls := calls + resetCalls;
    assert calls == ResetCalls(env);

    if currentPosition.x != 0 || currentPosition.y != 0 {
      calls := calls + [RestoreState(OriginProvider, env.originState)];
      assert !OriginReached(env);
      return Failure(OriginNotReached), calls;
    }
    assert OriginReached(env);

    // The first part: capture, scale and cut, then cut to the requested region.
    calls := calls + [GetImage];
    var crop, image := CaptureFirstPart(env);

    var entireSize: RectangleSize;
    match env.entireSize {
      case Some(size) => entireSize := size;
      case None => entireSize := image;
    }
    assert entireSize == ContentSize(env);

    if image.width >= entireSize.width && image.height >= entireSize.height {
      calls := calls + [RestoreState(OriginProvider, env.originState)];
      assert Covers(Capture(env, 0), ContentSize(env));
      return Success(Unstitched(crop, image)), calls;
    }
    assert !Covers(Capture(env, 0), ContentSize(env));

    var partImageSize := PartImageSize(image);
    var entirePage := Rect.FromLocationSize(Zero, entireSize);
    var imageParts := GetSubRegions(entirePage, partImageSize, false);
    if imageParts.Failure? {
      assert imageParts.error == ZeroWidthBudget && Capture(env, 0).width == 0;
      return Failure(InvalidArgument(imageParts.error)), calls;
    }
    var tiles := imageParts.value;
    assert Capture(env, 0).width > 0;
    assert tiles == ContentTiles(env);

    var stitchCalls;
    result, stitchCalls := StitchParts(env, crop, image, entireSize, tiles);
    calls := calls + stitchCalls;
    assert calls == StitchCalls(env);
    assert StitchedRegion(env) == Outcome(StitchResult(env), StitchCalls(env));
    return result, calls;
  }

  /**
   * The stitching phase: the position provider's state is saved, the parts
   * are captured and placed after the first one, both states are restored
   * (position provider first) and the canvas is trimmed to the stitched extent.
   */
  method StitchParts(env: Collaborators, crop: Rect, image: RectangleSize, entireSize: RectangleSize, tiles: seq<Rect>)
    returns (result: Result<Stitched, CaptureError>, calls: seq<Call>)
    requires Capture(env, 0).width > 0
    requires crop == CropRegion(env) && image == Capture(env, 0) && entireSize == ContentSize(env)
    requires tiles == ContentTiles(env)
    ensures calls == StitchPhaseCalls(env, tiles)
    ensures result == StitchResult(env)
  {
    calls := [GetState(PositionProvider)];
    var parts, partCalls, lastSuccessfulLocation, lastSuccessfulPartSize := CaptureParts(env, crop, image, tiles);
    calls := calls + partCalls;
    var placements := [Placement(Zero, image)] + parts;

    calls := calls + [RestoreState(PositionProvider, env.positionState), RestoreState(OriginProvider, env.originState)];

    var trim := Trim(entireSize, lastSuccessfulLocation, lastSuccessfulPartSize);
    assert trim == StitchTrim(env);
    if trim.Failure? {
      return Failure(InvalidArgument(trim.error)), calls;
    }
    assert placements == Placements(env);
    return Success(Composite(crop, entireSize, placements, trim.value)), calls;
  }

  /**
   * The first capture: the region in the screenshot is clamped to the image's
   * bounds with `Region::intersect`, and the image is cut to it unless the
   * clamped region is empty.
   */
  method CaptureFirstPart(env: Collaborators) returns (crop: Rect, image: RectangleSize)
    ensures crop == CropRegion(env) && image == Capture(env, 0)
  {
    var capturedImage := env.images(0);
    var regionInScreenshot := new Region(env.regionInScreenshot);
    var imageBounds := new Region(Rect(0, 0, capturedImage.width, capturedImage.height));
    regionInScreenshot.Intersect(imageBounds);
    crop := regionInScreenshot.Value();
    image := CutToRegion(env, crop, capturedImage);
  }

  /** A capture cut to the crop region, or left whole when that region is empty. */
  method CutToRegion(env: Collaborators, crop: Rect, image: RectangleSize) returns (part: RectangleSize)
    ensures crop.IsEmpty() ==> part == image
    ensures !crop.IsEmpty() ==> part == env.imagePart(image, crop)
  {
    part := image;
    if !crop.IsEmpty() {
      part := env.imagePart(part, crop);
    }
  }

  /** The state the loop over the tiles carries: the parts placed, the calls made, the last successful location, the last part. */
  datatype LoopState = LoopState(parts: seq<Placement>, calls: seq<Call>, lastSuccessfulLocation: Location, partImage: Option<RectangleSize>)

  /** One iteration of the loop over the tiles. */
  function Step(env: Collaborators, st: LoopState, t: Rect): LoopState {
    if IsAtOrigin(t) then st
    else
      var p := Placement(env.reached(t.GetLocation()), Capture(env, |st.parts| + 1));
      LoopState(st.parts + [p], st.calls + [SetPosition(PositionProvider, t.GetLocation()), GetImage], p.location, Some(p.size))
  }

  /** The loop's state after the given tiles, starting without parts at (0, height of the first part). */
  function Progress(env: Collaborators, first: RectangleSize, tiles: seq<Rect>): LoopState {
    if |tiles| == 0 then LoopState([], [], Location(0, first.height), None)
    else Step(env, Progress(env, first, tiles[..|tiles| - 1]), tiles[|tiles| - 1])
  }

  /**
   * The loop over the tiles: every tile but one at (0, 0) is scrolled to,
   * captured, cut to the crop region and placed at the position read back.
   * It also yields the last successful location and the last part's size,
   * which are those of `first` when no part is taken.
   */
  method CaptureParts(env: Collaborators, crop: Rect, first: RectangleSize, tiles: seq<Rect>)
    returns (parts: seq<Placement>, calls: seq<Call>, lastSuccessfulLocation: Location, lastPartSize: RectangleSize)
    requires crop == CropRegion(env)
    ensures parts == PartPlacements(env, NonOriginTiles(tiles))
    ensures calls == PartCalls(NonOriginTiles(tiles))
    ensures lastSuccessfulLocation == LastLocation(first, parts)
    ensures lastPartSize == LastPartSize(first, parts)
  {
    parts := [];
    calls := [];
    lastSuccessfulLocation := Location(0, first.height);
    var partImage: Option<RectangleSize> := None;
    var i := 0;
    while i < |tiles|
      invariant 0 <= i <= |tiles|
      invariant LoopState(parts, calls, lastSuccessfulLocation, partImage) == Progress(env, first, tiles[..i])
    {
      var partRegion := tiles[i];
      ProgressStep(env, first, tiles, i);
      if partRegion.left == 0 && partRegion.top == 0 {
        i := i + 1;
        continue;
      }
      // scroll to the tile, read the position back, then capture
      calls := calls + [SetPosition(PositionProvider, partRegion.GetLocation()), GetImage];
      var currentPosition := env.reached(partRegion.GetLocation());
      // the captures so far: the first part and one per part placed
      var captures := |parts| + 1;
      var part := CutToRegion(env, crop, env.images(captures));
      assert part == Capture(env, captures);
      parts := parts + [Placement(currentPosition, part)];
      lastSuccessfulLocation := currentPosition;
      partImage := Some(part);
      i := i + 1;
    }
    assert tiles[..i] == tiles;
    ProgressParts(env, first, tiles);
    ProgressCalls(env, first, tiles);
    ProgressLast(env, first, tiles);
    lastPartSize := first;
    if partImage.Some? {
      lastPartSize := partImage.value;
    }
  }

  /** One more tile extends the loop's state by one iteration. */
  lemma ProgressStep(env: Collaborators, first: RectangleSize, tiles: seq<Rect>, i: nat)
    requires i < |tiles|
    ensures Progress(env, first, tiles[..i + 1]) == Step(env, Progress(env, first, tiles[..i]), tiles[i])
  {
    assert tiles[..i + 1][..i] == tiles[..i];
  }

  /** An iteration leaves the state alone for a tile at (0, 0), and otherwise appends one placement and two calls. */
  lemma StepAppends(env: Collaborators, st: LoopState, t: Rect)
    ensures IsAtOrigin(t) ==> Step(env, st, t) == st
    ensures !IsAtOrigin(t) ==>
              && Step(env, st, t).parts == st.parts + [Placement(env.reached(t.GetLocation()), Capture(env, |st.parts| + 1))]
              && Step(env, st, t).calls == st.calls + [SetPosition(PositionProvider, t.GetLocation()), GetImage]
  {
  }

  lemma NonOriginTilesLast(tiles: seq<Rect>)
    requires |tiles| > 0
    ensures var front, t := tiles[..|tiles| - 1], tiles[|tiles| - 1];
            NonOriginTiles(tiles) == if IsAtOrigin(t) then NonOriginTiles(front) else NonOriginTiles(front) + [t]
  {
    var front := tiles[..|tiles| - 1];
    assert NonOriginTiles(front) + [] == NonOriginTiles(front);
  }

  /** The loop's parts after `tiles` are the placements of the tiles not at (0, 0). */
  lemma {:induction false} ProgressParts(env: Collaborators, first: RectangleSize, tiles: seq<Rect>)
    ensures Progress(env, first, tiles).parts == PartPlacements(env, NonOriginTiles(tiles))
  {
    if |tiles| > 0 {
      var front, t := tiles[..|tiles| - 1], tiles[|tiles| - 1];
      var st := Progress(env, first, front);
      assert Progress(env, first, tiles) == Step(env, st, t);
      ProgressParts(env, first, front);
      StepAppends(env, st, t);
      NonOriginTilesLast(tiles);
      if !IsAtOrigin(t) {
        var done := NonOriginTiles(front);
        PartPlacementsAppend(env, done, t, Capture(env, |done| + 1));
      }
    }
  }

  /** The loop's calls after `tiles` scroll to and capture each tile not at (0, 0). */
  lemma {:induction false} ProgressCalls(env: Collaborators, first: RectangleSize, tiles: seq<Rect>)
    ensures Progress(env, first, tiles).calls == PartCalls(NonOriginTiles(tiles))
  {
    if |tiles| > 0 {
      var front, t := tiles[..|tiles| - 1], tiles[|tiles| - 1];
      var st := Progress(env, first, front);
      assert Progress(env, first, tiles) == Step(env, st, t);
      ProgressCalls(env, first, front);
      StepAppends(env, st, t);
      NonOriginTilesLast(tiles);
      if !IsAtOrigin(t) {
        PartCallsAppend(NonOriginTiles(front), t);
      }
    }
  }

  /** The loop's last successful location and last part are those of its last placement, if any. */
  lemma {:induction false} ProgressLast(env: Collaborators, first: RectangleSize, tiles: seq<Rect>)
    ensures var st := Progress(env, first, tiles);
            && st.lastSuccessfulLocation == LastLocation(first, st.parts)
            && (st.partImage.None? <==> |st.parts| == 0)
            && (st.partImage.Some? ==> st.partImage.value == LastPartSize(first, st.parts))
  {
    if |tiles| > 0 {
      ProgressLast(env, first, tiles[..|tiles| - 1]);
    }
  }

  // ---------------------------------------------------------------------
  // Lemmas
  // ---------------------------------------------------------------------

  lemma {:induction false} CountAppend(a: seq<Call>, b: seq<Call>, c: Call)
    ensures CountOf(a + b, c) == CountOf(a, c) + CountOf(b, c)
    decreases |b|
  {
    if |b| == 0 {
      assert a + b == a;
    } else {
      var b' := b[..|b| - 1];
      assert (a + b)[..|a + b| - 1] == a + b';
      CountAppend(a, b', c);
    }
  }

  lemma {:induction false} CountRepeat(d: Call, n: nat, c: Call)
    ensures CountOf(Repeat(d, n), c) == if d == c then n else 0
  {
    if n > 0 {
      assert Repeat(d, n)[..n - 1] == Repeat(d, n - 1);
      CountRepeat(d, n - 1, c);
    }
  }

  /** The tiles' scroll-and-capture calls never touch the origin provider. */
  lemma {:induction false} CountPartCalls(tiles: seq<Rect>, c: Call)
    requires c.SetPosition? ==> c.provider == OriginProvider
    requires !c.GetImage? && !c.GetState?
    ensures CountOf(PartCalls(tiles), c) == 0
  {
    if |tiles| > 0 {
      var front := tiles[..|tiles| - 1];
      var tail := [SetPosition(PositionProvider, tiles[|tiles| - 1].GetLocation()), GetImage];
      CountPartCalls(front, c);
      CountAppend(PartCalls(front), tail, c);
      CountPair(tail[0], tail[1], c);
    }
  }

  /** The origin reset sets the origin provider's position once per attempt and restores nothing. */
  lemma CountResetCalls(env: Collaborators)
    ensures CountOf(ResetCalls(env), SetPosition(OriginProvider, Zero)) == ResetAttempts(env.originPositions)
    ensures CountOf(ResetCalls(env), RestoreState(OriginProvider, env.originState)) == 0
  {
    var n := ResetAttempts(env.originPositions);
    assert [GetState(OriginProvider)][..0] == [];
    CountAppend([GetState(OriginProvider)], Repeat(SetPosition(OriginProvider, Zero), n), SetPosition(OriginProvider, Zero));
    CountRepeat(SetPosition(OriginProvider, Zero), n, SetPosition(OriginProvider, Zero));
    CountAppend([GetState(OriginProvider)], Repeat(SetPosition(OriginProvider, Zero), n), RestoreState(OriginProvider, env.originState));
    CountRepeat(SetPosition(OriginProvider, Zero), n, RestoreState(OriginProvider, env.originState));
  }

  lemma CountAppendTwo(a: seq<Call>, b: seq<Call>, env: Collaborators)
    ensures CountOf(a + b, SetPosition(OriginProvider, Zero)) == CountOf(a, SetPosition(OriginProvider, Zero)) + CountOf(b, SetPosition(OriginProvider, Zero))
    ensures CountOf(a + b, RestoreState(OriginProvider, env.originState)) == CountOf(a, RestoreState(OriginProvider, env.originState)) + CountOf(b, RestoreState(OriginProvider, env.originState))
  {
    CountAppend(a, b, SetPosition(OriginProvider, Zero));
    CountAppend(a, b, RestoreState(OriginProvider, env.originState));
  }

  /** A stitching run sets the origin provider's position once per reset attempt and restores its state once. */
  lemma CountStitchCalls(env: Collaborators, tiles: seq<Rect>)
    ensures var calls := ResetCalls(env) + [GetImage] + StitchPhaseCalls(env, tiles);
            && CountOf(calls, SetPosition(OriginProvider, Zero)) == ResetAttempts(env.originPositions)
            && CountOf(calls, RestoreState(OriginProvider, env.originState)) == 1
  {
    var parts := PartCalls(NonOriginTiles(tiles));
    var head := [GetState(PositionProvider)];
    var tail := [RestoreState(PositionProvider, env.positionState), RestoreState(OriginProvider, env.originState)];
    CountResetCalls(env);
    CountAppendTwo(ResetCalls(env), [GetImage], env);
    CountAppendTwo(head, parts, env);
    CountAppendTwo(head + parts, tail, env);
    CountAppendTwo(ResetCalls(env) + [GetImage], StitchPhaseCalls(env, tiles), env);
    CountPartCalls(NonOriginTiles(tiles), SetPosition(OriginProvider, Zero));
    CountPartCalls(NonOriginTiles(tiles), RestoreState(OriginProvider, env.originState));
    assert [GetImage][..0] == [] && head[..0] == [];
    CountPair(tail[0], tail[1], SetPosition(OriginProvider, Zero));
    CountPair(tail[0], tail[1], RestoreState(OriginProvider, env.originState));
  }

  /** The k-th part is placed where the position provider reads back after scrolling to the k-th captured tile, with capture k + 1's size. */
  lemma {:induction false} PartPlacementsAt(env: Collaborators, tiles: seq<Rect>, k: nat)
    requires k < |tiles|
    ensures PartPlacements(env, tiles)[k].location == env.reached(tiles[k].GetLocation())
    ensures PartPlacements(env, tiles)[k].size == Capture(env, k + 1)
  {
    if k < |tiles| - 1 {
      PartPlacementsAt(env, tiles[..|tiles| - 1], k);
    }
  }

  lemma PartCallsAppend(tiles: seq<Rect>, t: Rect)
    ensures PartCalls(tiles + [t]) == PartCalls(tiles) + [SetPosition(PositionProvider, t.GetLocation()), GetImage]
  {
    assert (tiles + [t])[..|tiles|] == tiles;
  }

  /** The occurrences of `c` in a two-call sequence. */
  lemma CountPair(a: Call, b: Call, c: Call)
    ensures CountOf([a, b], c) == (if a == c then 1 else 0) + (if b == c then 1 else 0)
  {
    assert [a, b][..1] == [a];
    assert [a][..0] == [];
    assert CountOf([a], c) == CountOf([], c) + if a == c then 1 else 0;
  }

  lemma PartPlacementsAppend(env: Collaborators, tiles: seq<Rect>, t: Rect, part: RectangleSize)
    requires part == Capture(env, |tiles| + 1)
    ensures PartPlacements(env, tiles + [t]) == PartPlacements(env, tiles) + [Placement(env.reached(t.GetLocation()), part)]
  {
    assert (tiles + [t])[..|tiles|] == tiles;
  }

  // ---------------------------------------------------------------------
  // What a run of getStitchedRegion guarantees
  // ---------------------------------------------------------------------

  /** The run raises `OriginNotReached` exactly when the reset fails, returns the single capture exactly when it covers the content, and stitches otherwise. */
  lemma OutcomeCases(env: Collaborators)
    ensures var o := StitchedRegion(env);
            && (o.result == Failure(OriginNotReached) <==> !OriginReached(env))
            && (o.result.Success? && o.result.value.Unstitched? <==>
                  OriginReached(env) && Covers(Capture(env, 0), ContentSize(env)))
            && (o.result.Success? && o.result.value.Composite? <==>
                  && OriginReached(env) && !Covers(Capture(env, 0), ContentSize(env))
                  && Capture(env, 0).width > 0 && StitchTrim(env).Success?)
    ensures var o := StitchedRegion(env);
            o.result.Success? && o.result.value.Composite? ==>
              && o.result.value.canvas == ContentSize(env)
              && o.result.value.placements[0] == Placement(Zero, Capture(env, 0))
  {
  }

  /** Calls made after the origin reset. */
  lemma AfterReset(env: Collaborators, rest: seq<Call>)
    ensures var calls := ResetCalls(env) + rest;
            && |ResetCalls(env)| <= |calls| && calls[..|ResetCalls(env)|] == ResetCalls(env)
            && CountOf(calls, SetPosition(OriginProvider, Zero))
               == ResetAttempts(env.originPositions) + CountOf(rest, SetPosition(OriginProvider, Zero))
  {
    CountResetCalls(env);
    CountAppend(ResetCalls(env), rest, SetPosition(OriginProvider, Zero));
    assert (ResetCalls(env) + rest)[..|ResetCalls(env)|] == ResetCalls(env);
  }

  /** The occurrences of `c` in a one-call sequence. */
  lemma CountSingle(a: Call, c: Call)
    ensures CountOf([a], c) == if a == c then 1 else 0
  {
    assert [a][..0] == [];
  }

  /** Every run begins with the origin reset, and sets the origin provider's position once per attempt, at most three times. */
  lemma ResetComesFirst(env: Collaborators)
    ensures var o := StitchedRegion(env);
            && |ResetCalls(env)| <= |o.calls| && o.calls[..|ResetCalls(env)|] == ResetCalls(env)
            && CountOf(o.calls, SetPosition(OriginProvider, Zero)) == ResetAttempts(env.originPositions) <= SetPositionRetries
  {
    var origin := RestoreState(OriginProvider, env.originState);
    var setOrigin := SetPosition(OriginProvider, Zero);
    var rest: seq<Call>;
    if !OriginReached(env) {
      rest := [origin];
      CountSingle(origin, setOrigin);
    } else if Covers(Capture(env, 0), ContentSize(env)) {
      rest := [GetImage, origin];
      CountPair(GetImage, origin, setOrigin);
    } else if Capture(env, 0).width == 0 {
      rest := [GetImage];
      CountSingle(GetImage, setOrigin);
    } else {
      var phase := StitchPhaseCalls(env, ContentTiles(env));
      CountStitchCalls(env, ContentTiles(env));
      rest := [GetImage] + phase;
      assert StitchCalls(env) == ResetCalls(env) + rest;
    }
    AfterReset(env, rest);
    assert StitchedRegion(env).calls == ResetCalls(env) + rest;
  }

  /**
   * On every exit but the tiling guard's, the last call restores the origin
   * provider's saved state and no other call does; a run that stitches
   * restores the position provider's saved state just before.
   */
  lemma OriginRestoredOnExit(env: Collaborators)
    ensures var o := StitchedRegion(env);
            !(OriginReached(env) && !Covers(Capture(env, 0), ContentSize(env)) && Capture(env, 0).width == 0) ==>
              && |o.calls| >= 2 && o.calls[|o.calls| - 1] == RestoreState(OriginProvider, env.originState)
              && CountOf(o.calls, RestoreState(OriginProvider, env.originState)) == 1
    ensures var o := StitchedRegion(env);
            OriginReached(env) && !Covers(Capture(env, 0), ContentSize(env)) && Capture(env, 0).width > 0 ==>
              && GetState(PositionProvider) in o.calls
              && o.calls[|o.calls| - 2] == RestoreState(PositionProvider, env.positionState)
  {
    var o := StitchedRegion(env);
    var reset := ResetCalls(env);
    var origin := RestoreState(OriginProvider, env.originState);
    CountResetCalls(env);
    if !OriginReached(env) {
      CountAppend(reset, [origin], origin);
      assert [origin][..0] == [];
    } else if Covers(Capture(env, 0), ContentSize(env)) {
      CountAppend(reset, [GetImage, origin], origin);
      CountPair(GetImage, origin, origin);
    } else if Capture(env, 0).width > 0 {
      CountStitchCalls(env, ContentTiles(env));
      var phase := StitchPhaseCalls(env, ContentTiles(env));
      assert o.calls == (reset + [GetImage]) + phase;
      assert o.calls[|reset| + 1] == GetState(PositionProvider);
    }
  }

  /** The number of occurrences of a call is its multiplicity in the trace. */
  lemma {:induction false} CountIsMultiplicity(calls: seq<Call>, c: Call)
    ensures CountOf(calls, c) == multiset(calls)[c]
  {
    if |calls| > 0 {
      var front := calls[..|calls| - 1];
      CountIsMultiplicity(front, c);
      assert calls == front + [calls[|calls| - 1]];
    }
  }

  /** The tiles' calls only scroll the position provider and capture. */
  lemma {:induction false} PartCallsKinds(tiles: seq<Rect>)
    ensures forall d :: d in PartCalls(tiles) ==> d.GetImage? || (d.SetPosition? && d.provider == PositionProvider)
  {
    if |tiles| > 0 {
      PartCallsKinds(tiles[..|tiles| - 1]);
    }
  }

  /** The origin reset only calls the origin provider. */
  lemma ResetCallsOriginOnly(env: Collaborators)
    ensures forall d :: d in ResetCalls(env) ==> d.provider == OriginProvider
  {
  }

  /** The stitching phase saves and restores the position provider's state once each. */
  lemma StitchPhasePairs(env: Collaborators, tiles: seq<Rect>)
    ensures multiset(StitchPhaseCalls(env, tiles))[GetState(PositionProvider)] == 1
    ensures multiset(StitchPhaseCalls(env, tiles))[RestoreState(PositionProvider, env.positionState)] == 1
  {
    var parts := PartCalls(NonOriginTiles(tiles));
    PartCallsKinds(NonOriginTiles(tiles));
    assert GetState(PositionProvider) !in parts;
    assert RestoreState(PositionProvider, env.positionState) !in parts;
  }

  /** A stitching run saves and restores the position provider's state once each. */
  lemma StitchCallsPairPositionState(env: Collaborators)
    requires Capture(env, 0).width > 0
    ensures CountOf(StitchCalls(env), GetState(PositionProvider)) == 1
    ensures CountOf(StitchCalls(env), RestoreState(PositionProvider, env.positionState)) == 1
  {
    var save, restore := GetState(PositionProvider), RestoreState(PositionProvider, env.positionState);
    var reset := ResetCalls(env);
    var phase := StitchPhaseCalls(env, ContentTiles(env));
    StitchPhasePairs(env, ContentTiles(env));
    ResetCallsOriginOnly(env);
    assert save !in reset && restore !in reset;
    assert multiset(StitchCalls(env)) == multiset(reset) + multiset([GetImage]) + multiset(phase);
    CountIsMultiplicity(StitchCalls(env), save);
    CountIsMultiplicity(StitchCalls(env), restore);
  }

  /**
   * A run that stitches saves the position provider's state once and restores
   * it once; a run that does not stitch never calls the position provider.
   */
  lemma PositionStatePaired(env: Collaborators)
    ensures var o := StitchedRegion(env);
            OriginReached(env) && !Covers(Capture(env, 0), ContentSize(env)) && Capture(env, 0).width > 0 ==>
              && CountOf(o.calls, GetState(PositionProvider)) == 1
              && CountOf(o.calls, RestoreState(PositionProvider, env.positionState)) == 1
    ensures var o := StitchedRegion(env);
            !(OriginReached(env) && !Covers(Capture(env, 0), ContentSize(env)) && Capture(env, 0).width > 0) ==>
              forall d :: d in o.calls ==> d.GetImage? || d.provider == OriginProvider
  {
    var reset := ResetCalls(env);
    var origin := RestoreState(OriginProvider, env.originState);
    var rest: seq<Call>;
    if !OriginReached(env) {
      rest := [origin];
    } else if Covers(Capture(env, 0), ContentSize(env)) {
      rest := [GetImage, origin];
    } else if Capture(env, 0).width == 0 {
      rest := [GetImage];
    } else {
      StitchCallsPairPositionState(env);
      return;
    }
    assert StitchedRegion(env).calls == reset + rest;
    ResetCallsOriginOnly(env);
  }

  /** The tiling guard raises after the first capture without restoring the origin provider's state, as the source does. */
  lemma TilingGuardLeavesStateUnrestored(env: Collaborators)
    requires OriginReached(env) && !Covers(Capture(env, 0), ContentSize(env)) && Capture(env, 0).width == 0
    ensures StitchedRegion(env).result == Failure(InvalidArgument(ZeroWidthBudget))
    ensures CountOf(StitchedRegion(env).calls, RestoreState(OriginProvider, env.originState)) == 0
  {
    CountResetCalls(env);
    CountAppend(ResetCalls(env), [GetImage], RestoreState(OriginProvider, env.originState));
    assert [GetImage][..0] == [];
  }

  /** When the first tile is at (0, 0) and no other is, the loop captures exactly the other tiles. */
  lemma {:induction false} NonOriginTilesAfterCorner(s: seq<Rect>)
    requires |s| > 0 && IsAtOrigin(s[0])
    requires forall k :: 0 < k < |s| ==> !IsAtOrigin(s[k])
    ensures NonOriginTiles(s) == s[1..]
  {
    var front := s[..|s| - 1];
    NonOriginTilesLast(s);
    if |s| > 1 {
      NonOriginTilesAfterCorner(front);
      assert front[1..] + [s[|s| - 1]] == s[1..];
    } else {
      assert NonOriginTiles(front) == [];
    }
  }

  /**
   * Of the content's tiles only the first, the one already captured, is at
   * (0, 0): the loop captures every other tile, in order.
   */
  lemma OnlyTheFirstTileIsSkipped(env: Collaborators)
    requires Capture(env, 0).width > 0
    ensures |ContentTiles(env)| > 0 <==> ContentSize(env).width > 0 && ContentSize(env).height > 0
    ensures |ContentTiles(env)| > 0 ==> NonOriginTiles(ContentTiles(env)) == ContentTiles(env)[1..]
  {
    var c := Bounds(ContentSize(env));
    var tiles := ContentTiles(env);
    VaryingTilesFirstAtCorner(c, PartImageSize(Capture(env, 0)));
    if |tiles| > 0 {
      forall k | 0 <= k < |tiles| ensures IsAtOrigin(tiles[k]) <==> tiles[k].GetLocation() == Zero {
      }
      NonOriginTilesAfterCorner(tiles);
    }
  }

  /** With exact scrolling, the first part at (0, 0) and one part per remaining tile place every part at its tile's corner. */
  lemma PlacementsFollowTiles(env: Collaborators, tiles: seq<Rect>)
    requires |tiles| > 0 && tiles[0].GetLocation() == Zero
    requires forall p :: env.reached(p) == p
    ensures var placements := [Placement(Zero, Capture(env, 0))] + PartPlacements(env, tiles[1..]);
            && |placements| == |tiles|
            && forall k :: 0 <= k < |tiles| ==> placements[k].location == tiles[k].GetLocation()
  {
    var parts := PartPlacements(env, tiles[1..]);
    forall k | 0 < k < |tiles| ensures parts[k - 1].location == tiles[k].GetLocation() {
      assert tiles[1..][k - 1] == tiles[k];
      PartPlacementsAt(env, tiles[1..], k - 1);
      assert env.reached(tiles[k].GetLocation()) == tiles[k].GetLocation();
    }
  }

  /**
   * When the page scrolls exactly where it is asked to, every part lands at
   * the top-left corner of its own tile, and the tiles partition the canvas.
   */
  lemma PartsLandOnTheirTiles(env: Collaborators)
    requires Capture(env, 0).width > 0
    requires ContentSize(env).width > 0 && ContentSize(env).height > 0
    requires forall p :: env.reached(p) == p
    ensures |Placements(env)| == |ContentTiles(env)|
    ensures forall k :: 0 <= k < |Placements(env)| ==> Placements(env)[k].location == ContentTiles(env)[k].GetLocation()
    ensures PairwiseDisjoint(ContentTiles(env)) && UnionIs(ContentTiles(env), Bounds(ContentSize(env)))
  {
    var tiles := ContentTiles(env);
    OnlyTheFirstTileIsSkipped(env);
    VaryingTilesFirstAtCorner(Bounds(ContentSize(env)), PartImageSize(Capture(env, 0)));
    VaryingTilesPartition(Bounds(ContentSize(env)), PartImageSize(Capture(env, 0)));
    assert Placements(env) == [Placement(Zero, Capture(env, 0))] + PartPlacements(env, tiles[1..]);
    PlacementsFollowTiles(env, tiles);
  }
}
