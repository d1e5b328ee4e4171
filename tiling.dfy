/**
 * The tiling engine: `Region::getSubRegions` and its two policies.
 *
 * Each policy is specified by a pair of recursive functions that follow the
 * source's two nested loops (a row, then the rows below it); the methods run
 * those loops and are proved to produce exactly the specified sequence, and
 * the lemmas state what the sequences are: tiles inside the container, of
 * the promised sizes, in row-major order, disjoint (varying size) and covering
 * the container.
 */
module Tiling {
  import opened Wrappers
  import opened Geometry

  /** `a` lies wholly above `b`, or in the same row and wholly to its left. */
  predicate Precedes(a: Rect, b: Rect) {
    a.Bottom() <= b.top || (a.top == b.top && a.Right() <= b.left)
  }

  /** `a` comes before `b` in row-major order: a smaller top, or the same top and a smaller left. */
  predicate RowMajorBefore(a: Rect, b: Rect) {
    a.top < b.top || (a.top == b.top && a.left < b.left)
  }

  /** Every tile precedes every later tile. */
  ghost predicate PrecedesInOrder(s: seq<Rect>) {
    forall i, j :: 0 <= i < j < |s| ==> Precedes(s[i], s[j])
  }

  /** The tiles are listed in strict row-major order. */
  ghost predicate RowMajor(s: seq<Rect>) {
    forall i, j :: 0 <= i < j < |s| ==> RowMajorBefore(s[i], s[j])
  }

  /** No pixel lies in two different tiles. */
  ghost predicate PairwiseDisjoint(s: seq<Rect>) {
    forall i, j, x, y :: 0 <= i < j < |s| && s[i].HasPixel(x, y) ==> !s[j].HasPixel(x, y)
  }

  /** The union of the tiles is exactly the container's pixels. */
  ghost predicate UnionIs(s: seq<Rect>, c: Rect) {
    forall x, y :: c.HasPixel(x, y) <==> exists k :: 0 <= k < |s| && s[k].HasPixel(x, y)
  }

  lemma ConcatPrecedesInOrder(a: seq<Rect>, b: seq<Rect>)
    requires PrecedesInOrder(a) && PrecedesInOrder(b)
    requires forall s, t :: s in a && t in b ==> Precedes(s, t)
    ensures PrecedesInOrder(a + b)
  {
    forall i, j | 0 <= i < j < |a + b| ensures Precedes((a + b)[i], (a + b)[j]) {
      if j < |a| {
      } else if i >= |a| {
        assert (a + b)[i] == b[i - |a|] && (a + b)[j] == b[j - |a|];
      } else {
        assert (a + b)[i] in a && (a + b)[j] in b;
      }
    }
  }

  lemma ConcatRowMajor(a: seq<Rect>, b: seq<Rect>)
    requires RowMajor(a) && RowMajor(b)
    requires forall s, t :: s in a && t in b ==> RowMajorBefore(s, t)
    ensures RowMajor(a + b)
  {
    forall i, j | 0 <= i < j < |a + b| ensures RowMajorBefore((a + b)[i], (a + b)[j]) {
      if j < |a| {
      } else if i >= |a| {
        assert (a + b)[i] == b[i - |a|] && (a + b)[j] == b[j - |a|];
      } else {
        assert (a + b)[i] in a && (a + b)[j] in b;
      }
    }
  }

  // ---------------------------------------------------------------------
  // Varying-size policy (getSubRegionsWithVaryingSize)
  // ---------------------------------------------------------------------

  /**
   * One row of the varying-size policy: tiles from column `left` on, each
   * `size.width` wide except where clipped at the container's right edge,
   * spanning rows `top` to `bottom`.
   */
  function VaryingRow(c: Rect, size: RectangleSize, top: int, bottom: int, left: int): seq<Rect>
    requires size.width > 0 && top <= bottom
    decreases c.Right() - left
  {
    if left >= c.Right() then []
    else
      var right := if left + size.width > c.Right() then c.Right() else left + size.width;
      [Rect(left, top, right - left, bottom - top)] + VaryingRow(c, size, top, bottom, left + size.width)
  }

  /** The rows of the varying-size policy from row `top` down, each clipped at the container's bottom edge. */
  function VaryingRows(c: Rect, size: RectangleSize, top: int): seq<Rect>
    requires size.width > 0 && size.height > 0
    decreases c.Bottom() - top
  {
    if top >= c.Bottom() then []
    else
      var bottom := if top + size.height > c.Bottom() then c.Bottom() else top + size.height;
      VaryingRow(c, size, top, bottom, c.left) + VaryingRows(c, size, top + size.height)
  }

  /** The varying-size decomposition of container `c` with maximum tile size `size`. */
  function VaryingTiles(c: Rect, size: RectangleSize): seq<Rect>
    requires size.width > 0 && size.height > 0
  {
    VaryingRows(c, size, c.top)
  }

  lemma {:induction false} VaryingRowShape(c: Rect, size: RectangleSize, top: int, bottom: int, left: int)
    requires size.width > 0 && top <= bottom
    ensures forall t :: t in VaryingRow(c, size, top, bottom, left) ==>
              && t.top == top && t.Bottom() == bottom
              && left <= t.left && t.Right() <= c.Right()
              && 0 < t.width <= size.width
              && (t.width == size.width || t.Right() == c.Right())
    ensures PrecedesInOrder(VaryingRow(c, size, top, bottom, left))
    decreases c.Right() - left
  {
    if left < c.Right() {
      var next := left + size.width;
      VaryingRowShape(c, size, top, bottom, next);
      var row := VaryingRow(c, size, top, bottom, left);
      assert row == [row[0]] + VaryingRow(c, size, top, bottom, next);
      ConcatPrecedesInOrder([row[0]], VaryingRow(c, size, top, bottom, next));
    }
  }

  lemma {:induction false} VaryingRowsShape(c: Rect, size: RectangleSize, top: int)
    requires size.width > 0 && size.height > 0 && c.top <= top
    ensures forall t :: t in VaryingRows(c, size, top) ==>
              && top <= t.top && c.Contains(t)
              && 0 < t.width <= size.width && 0 < t.height <= size.height
              && (t.width == size.width || t.Right() == c.Right())
              && (t.height == size.height || t.Bottom() == c.Bottom())
    ensures PrecedesInOrder(VaryingRows(c, size, top))
    decreases c.Bottom() - top
  {
    if top < c.Bottom() {
      var bottom := if top + size.height > c.Bottom() then c.Bottom() else top + size.height;
      VaryingRowsUnfold(c, size, top, bottom, []);
      var row := VaryingRow(c, size, top, bottom, c.left);
      var rest := VaryingRows(c, size, top + size.height);
      VaryingRowShape(c, size, top, bottom, c.left);
      VaryingRowsShape(c, size, top + size.height);
      forall a, b | a in row && b in rest ensures Precedes(a, b) {
        assert a.Bottom() == bottom <= top + size.height <= b.top;
      }
      ConcatPrecedesInOrder(row, rest);
      forall t: Rect | t in row + rest
        ensures && top <= t.top && c.Contains(t)
                && 0 < t.width <= size.width && 0 < t.height <= size.height
                && (t.width == size.width || t.Right() == c.Right())
                && (t.height == size.height || t.Bottom() == c.Bottom())
      {
        if t in row {
          assert t.top == top && t.Bottom() == bottom;
        } else {
          assert t in rest;
        }
      }
    }
  }

  lemma {:induction false} VaryingRowCovers(c: Rect, size: RectangleSize, top: int, bottom: int, left: int, x: int)
    returns (k: nat)
    requires size.width > 0 && top <= bottom && left <= x < c.Right()
    ensures k < |VaryingRow(c, size, top, bottom, left)|
    ensures var t := VaryingRow(c, size, top, bottom, left)[k];
            t.left <= x < t.Right() && t.top == top && t.Bottom() == bottom
    decreases c.Right() - left
  {
    var row := VaryingRow(c, size, top, bottom, left);
    var rest := VaryingRow(c, size, top, bottom, left + size.width);
    assert row == [row[0]] + rest;
    if x < left + size.width {
      k := 0;
    } else {
      var k' := VaryingRowCovers(c, size, top, bottom, left + size.width, x);
      k := k' + 1;
      assert row[k] == rest[k'];
    }
  }

  /** The first row of a varying-size decomposition that has one, and the rows below it, also after tiles `done`. */
  lemma VaryingRowsUnfold(c: Rect, size: RectangleSize, top: int, bottom: int, done: seq<Rect>)
    requires size.width > 0 && size.height > 0 && top < c.Bottom()
    requires bottom == if top + size.height > c.Bottom() then c.Bottom() else top + size.height
    ensures top < bottom
    ensures VaryingRows(c, size, top) == VaryingRow(c, size, top, bottom, c.left) + VaryingRows(c, size, top + size.height)
    ensures done + VaryingRows(c, size, top)
            == (done + VaryingRow(c, size, top, bottom, c.left)) + VaryingRows(c, size, top + size.height)
  {
  }

  /** The first tile of a varying-size row that has one, and the rest of the row, also after tiles `done`. */
  lemma VaryingRowUnfold(c: Rect, size: RectangleSize, top: int, bottom: int, left: int, tile: Rect, done: seq<Rect>)
    requires size.width > 0 && top <= bottom && left < c.Right()
    requires tile == Rect(left, top, (if left + size.width > c.Right() then c.Right() else left + size.width) - left, bottom - top)
    ensures done + VaryingRow(c, size, top, bottom, left)
            == (done + [tile]) + VaryingRow(c, size, top, bottom, left + size.width)
  {
  }

  lemma {:induction false} VaryingRowsCover(c: Rect, size: RectangleSize, top: int, x: int, y: int)
    returns (k: nat)
    requires size.width > 0 && size.height > 0
    requires top <= y < c.Bottom() && c.left <= x < c.Right()
    ensures k < |VaryingRows(c, size, top)| && VaryingRows(c, size, top)[k].HasPixel(x, y)
    decreases c.Bottom() - top
  {
    var bottom := if top + size.height > c.Bottom() then c.Bottom() else top + size.height;
    VaryingRowsUnfold(c, size, top, bottom, []);
    var row := VaryingRow(c, size, top, bottom, c.left);
    var rest := VaryingRows(c, size, top + size.height);
    if y < top + size.height {
      k := VaryingRowCovers(c, size, top, bottom, c.left, x);
      assert (row + rest)[k] == row[k];
    } else {
      var k' := VaryingRowsCover(c, size, top + size.height, x, y);
      k := |row| + k';
      assert (row + rest)[k] == rest[k'];
    }
  }

  /**
   * The varying-size decomposition exactly tiles the container: every tile
   * lies inside it with a positive size no larger than `size`, and is smaller
   * than `size` only where it is clipped at the container's right or bottom
   * edge; the tiles come in row-major order, no pixel is in two tiles, and
   * their union is the container.
   */
  lemma VaryingTilesPartition(c: Rect, size: RectangleSize)
    requires size.width > 0 && size.height > 0
    ensures forall t :: t in VaryingTiles(c, size) ==>
              c.Contains(t) && 0 < t.width <= size.width && 0 < t.height <= size.height
    ensures forall t :: t in VaryingTiles(c, size) ==>
              && (t.width == size.width || t.Right() == c.Right())
              && (t.height == size.height || t.Bottom() == c.Bottom())
    ensures RowMajor(VaryingTiles(c, size))
    ensures PairwiseDisjoint(VaryingTiles(c, size))
    ensures UnionIs(VaryingTiles(c, size), c)
  {
    var tiles := VaryingTiles(c, size);
    VaryingRowsShape(c, size, c.top);
    forall i, j | 0 <= i < j < |tiles| ensures RowMajorBefore(tiles[i], tiles[j]) {
      assert tiles[i] in tiles;
    }
    forall i, j, x, y | 0 <= i < j < |tiles| && tiles[i].HasPixel(x, y) ensures !tiles[j].HasPixel(x, y) {
      assert Precedes(tiles[i], tiles[j]);
    }
    forall x, y ensures c.HasPixel(x, y) <==> exists k :: 0 <= k < |tiles| && tiles[k].HasPixel(x, y) {
      if c.HasPixel(x, y) {
        var k := VaryingRowsCover(c, size, c.top, x, y);
      }
      if exists k :: 0 <= k < |tiles| && tiles[k].HasPixel(x, y) {
        var k :| 0 <= k < |tiles| && tiles[k].HasPixel(x, y);
        assert tiles[k] in tiles;
      }
    }
  }

  /**
   * The decomposition is empty exactly when the container has no pixel;
   * otherwise its first tile sits at the container's top-left corner and no
   * other tile does.
   */
  lemma VaryingTilesFirstAtCorner(c: Rect, size: RectangleSize)
    requires size.width > 0 && size.height > 0
    ensures |VaryingTiles(c, size)| > 0 <==> c.width > 0 && c.height > 0
    ensures |VaryingTiles(c, size)| > 0 ==> VaryingTiles(c, size)[0].GetLocation() == c.GetLocation()
    ensures forall k :: 0 < k < |VaryingTiles(c, size)| ==>
              VaryingTiles(c, size)[k].GetLocation() != c.GetLocation()
  {
    var tiles := VaryingTiles(c, size);
    VaryingRowsShape(c, size, c.top);
    if c.width > 0 && c.height > 0 {
      var k := VaryingRowsCover(c, size, c.top, c.left, c.top);
    }
    if |tiles| > 0 {
      var bottom := if c.top + size.height > c.Bottom() then c.Bottom() else c.top + size.height;
      assert tiles[0] in tiles;
      assert c.top < c.Bottom() && c.left < c.Right();
      assert |VaryingRow(c, size, c.top, bottom, c.left)| > 0;
      assert tiles[0] == VaryingRow(c, size, c.top, bottom, c.left)[0];
      forall k | 0 < k < |tiles| ensures tiles[k].GetLocation() != c.GetLocation() {
        assert Precedes(tiles[0], tiles[k]);
        assert tiles[0] in tiles;
      }
    }
  }

  /**
   * `getSubRegionsWithVaryingSize`: walks the container in steps of
   * `maxSubRegionSize`, clipping the trailing tiles of each row and column to
   * the container. The size guard raises `ArgumentError` for a zero width or
   * height.
   */
  method GetSubRegionsWithVaryingSize(containerRegion: Rect, maxSubRegionSize: RectangleSize)
    returns (result: Result<seq<Rect>, ArgumentError>)
    ensures result.Success? <==> maxSubRegionSize.width > 0 && maxSubRegionSize.height > 0
    ensures maxSubRegionSize.width == 0 ==> result == Failure(ArgumentError("maxSubRegionSize.getWidth()"))
    ensures maxSubRegionSize.width > 0 && maxSubRegionSize.height == 0 ==>
              result == Failure(ArgumentError("maxSubRegionSize.getHeight()"))
    ensures result.Success? ==> result.value == VaryingTiles(containerRegion, maxSubRegionSize)
  {
    if maxSubRegionSize.width <= 0 {
      return Failure(ArgumentError("maxSubRegionSize.getWidth()"));
    }
    if maxSubRegionSize.height <= 0 {
      return Failure(ArgumentError("maxSubRegionSize.getHeight()"));
    }
    var c, size := containerRegion, maxSubRegionSize;
    var subRegions: seq<Rect> := [];
    var currentTop := c.top;
    var bottom := c.top + c.height;
    var right := c.left + c.width;

    while currentTop < bottom
      invariant subRegions + VaryingRows(c, size, currentTop) == VaryingTiles(c, size)
      decreases bottom - currentTop
    {
      var currentBottom := currentTop + size.height;
      if currentBottom > bottom {
        currentBottom := bottom;
      }
      ghost var before := subRegions;
      var currentLeft := c.left;
      while currentLeft < right
        invariant subRegions + VaryingRow(c, size, currentTop, currentBottom, currentLeft)
                  == before + VaryingRow(c, size, currentTop, currentBottom, c.left)
        decreases right - currentLeft
      {
        var currentRight := currentLeft + size.width;
        if currentRight > right {
          currentRight := right;
        }
        var currentHeight := currentBottom - currentTop;
        var currentWidth := currentRight - currentLeft;
        var tile := Rect(currentLeft, currentTop, currentWidth, currentHeight);
        VaryingRowUnfold(c, size, currentTop, currentBottom, currentLeft, tile, subRegions);
        subRegions := subRegions + [tile];
        currentLeft := currentLeft + size.width;
      }
      VaryingRowsUnfold(c, size, currentTop, currentBottom, before);
      currentTop := currentTop + size.height;
    }
    return Success(subRegions);
  }

  // ---------------------------------------------------------------------
  // Fixed-size policy (getSubRegionsWithFixedSize)
  // ---------------------------------------------------------------------

  /** The tile size after normalising: `size` clamped to the container's dimensions. */
  function ClampedSize(c: Rect, size: RectangleSize): (s: RectangleSize)
    ensures s.width <= c.width && s.height <= c.height
    ensures s.width <= size.width && s.height <= size.height
    ensures s.width == c.width || s.width == size.width
    ensures s.height == c.height || s.height == size.height
  {
    RectangleSize(if size.width > c.width then c.width else size.width,
                  if size.height > c.height then c.height else size.height)
  }

  /**
   * One row of the fixed-size policy from column `left` on: `w` by `h`
   * tiles, the last one shifted back so that its right edge is flush with
   * the container's.
   */
  function FixedRow(c: Rect, w: nat, h: nat, top: int, left: int): seq<Rect>
    requires w <= c.width && (c.width > 0 ==> w > 0) && c.left <= left
    decreases c.Right() - left
  {
    var right := c.left + c.width - 1;
    if left > right then []
    else
      var l := if left + w > right then (right - w) + 1 else left;
      [Rect(l, top, w, h)] + FixedRow(c, w, h, top, l + w)
  }

  /** The rows of the fixed-size policy from row `top` down, the last one shifted back flush with the bottom edge. */
  function FixedRows(c: Rect, w: nat, h: nat, top: int): seq<Rect>
    requires w <= c.width && (c.width > 0 ==> w > 0)
    requires h <= c.height && (c.height > 0 ==> h > 0) && c.top <= top
    decreases c.Bottom() - top
  {
    var bottom := c.top + c.height - 1;
    if top > bottom then []
    else
      var t := if top + h > bottom then (bottom - h) + 1 else top;
      FixedRow(c, w, h, t, c.left) + FixedRows(c, w, h, t + h)
  }

  /** The fixed-size decomposition of container `c` with tile size `size`. */
  function FixedTiles(c: Rect, size: RectangleSize): seq<Rect>
    requires size.width > 0 && size.height > 0
  {
    var s := ClampedSize(c, size);
    if s.width == c.width && s.height == c.height then [c]
    else FixedRows(c, s.width, s.height, c.top)
  }

  /** The first tile of a fixed-size row that has one, at column `l`, and the rest of the row, also after tiles `done`. */
  lemma FixedRowUnfold(c: Rect, w: nat, h: nat, top: int, left: int, l: int, done: seq<Rect>)
    requires w <= c.width && (c.width > 0 ==> w > 0) && c.left <= left <= c.left + c.width - 1
    requires l == if left + w > c.left + c.width - 1 then (c.left + c.width - 1 - w) + 1 else left
    ensures c.left <= l
    ensures FixedRow(c, w, h, top, left) == [Rect(l, top, w, h)] + FixedRow(c, w, h, top, l + w)
    ensures done + FixedRow(c, w, h, top, left) == (done + [Rect(l, top, w, h)]) + FixedRow(c, w, h, top, l + w)
  {
  }

  /** The first row of a fixed-size decomposition that has one, at row `t`, and the rows below it, also after tiles `done`. */
  lemma FixedRowsUnfold(c: Rect, w: nat, h: nat, top: int, t: int, done: seq<Rect>)
    requires w <= c.width && (c.width > 0 ==> w > 0)
    requires h <= c.height && (c.height > 0 ==> h > 0) && c.top <= top <= c.top + c.height - 1
    requires t == if top + h > c.top + c.height - 1 then (c.top + c.height - 1 - h) + 1 else top
    ensures c.top <= t
    ensures FixedRows(c, w, h, top) == FixedRow(c, w, h, t, c.left) + FixedRows(c, w, h, t + h)
    ensures done + FixedRows(c, w, h, top) == (done + FixedRow(c, w, h, t, c.left)) + FixedRows(c, w, h, t + h)
  {
  }

  lemma {:induction false} FixedRowShape(c: Rect, w: nat, h: nat, top: int, left: int)
    requires w <= c.width && (c.width > 0 ==> w > 0) && c.left <= left
    ensures forall t :: t in FixedRow(c, w, h, top, left) ==>
              && t.top == top && t.width == w && t.height == h
              && c.left <= t.left && t.Right() <= c.Right() && left - w < t.left
    ensures RowMajor(FixedRow(c, w, h, top, left))
    decreases c.Right() - left
  {
    var right := c.left + c.width - 1;
    if left <= right {
      var l := if left + w > right then (right - w) + 1 else left;
      FixedRowShape(c, w, h, top, l + w);
      var row := FixedRow(c, w, h, top, left);
      assert row == [Rect(l, top, w, h)] + FixedRow(c, w, h, top, l + w);
      ConcatRowMajor([Rect(l, top, w, h)], FixedRow(c, w, h, top, l + w));
    }
  }

  lemma {:induction false} FixedRowsShape(c: Rect, w: nat, h: nat, top: int)
    requires w <= c.width && (c.width > 0 ==> w > 0)
    requires h <= c.height && (c.height > 0 ==> h > 0) && c.top <= top
    ensures forall t :: t in FixedRows(c, w, h, top) ==>
              t.GetSize() == RectangleSize(w, h) && c.Contains(t) && top - h < t.top
    ensures RowMajor(FixedRows(c, w, h, top))
    decreases c.Bottom() - top
  {
    var bottom := c.top + c.height - 1;
    if top <= bottom {
      var t := if top + h > bottom then (bottom - h) + 1 else top;
      FixedRowsUnfold(c, w, h, top, t, []);
      var row := FixedRow(c, w, h, t, c.left);
      var rest := FixedRows(c, w, h, t + h);
      FixedRowShape(c, w, h, t, c.left);
      FixedRowsShape(c, w, h, t + h);
      forall a, b | a in row && b in rest ensures RowMajorBefore(a, b) {
        assert a.top == t < b.top;
      }
      ConcatRowMajor(row, rest);
      forall u: Rect | u in row + rest
        ensures u.GetSize() == RectangleSize(w, h) && c.Contains(u) && top - h < u.top
      {
        if u in row {
          assert u.top == t && t + h <= c.Bottom();
        } else {
          assert u in rest;
        }
      }
    }
  }

  lemma {:induction false} FixedRowCovers(c: Rect, w: nat, h: nat, top: int, left: int, x: int)
    returns (k: nat)
    requires w <= c.width && (c.width > 0 ==> w > 0) && c.left <= left
    requires left <= x < c.Right()
    ensures k < |FixedRow(c, w, h, top, left)|
    ensures FixedRow(c, w, h, top, left)[k].left <= x < FixedRow(c, w, h, top, left)[k].Right()
    decreases c.Right() - left
  {
    var right := c.left + c.width - 1;
    var l := if left + w > right then (right - w) + 1 else left;
    if x < l + w {
      k := 0;
    } else {
      var k' := FixedRowCovers(c, w, h, top, l + w, x);
      k := k' + 1;
    }
  }

  lemma {:induction false} FixedRowsCover(c: Rect, w: nat, h: nat, top: int, x: int, y: int)
    returns (k: nat)
    requires w <= c.width && (c.width > 0 ==> w > 0)
    requires h <= c.height && (c.height > 0 ==> h > 0) && c.top <= top
    requires top <= y < c.Bottom() && c.left <= x < c.Right()
    ensures k < |FixedRows(c, w, h, top)| && FixedRows(c, w, h, top)[k].HasPixel(x, y)
    decreases c.Bottom() - top
  {
    var bottom := c.top + c.height - 1;
    var t := if top + h > bottom then (bottom - h) + 1 else top;
    var row := FixedRow(c, w, h, t, c.left);
    FixedRowShape(c, w, h, t, c.left);
    if y < t + h {
      k := FixedRowCovers(c, w, h, t, c.left, x);
      assert row[k] in row;
    } else {
      var k' := FixedRowsCover(c, w, h, t + h, x, y);
      k := |row| + k';
    }
  }

  /**
   * The fixed-size decomposition: a single copy of the container when the
   * clamped size is the container's; otherwise every tile has exactly the
   * clamped size and lies inside the container (trailing tiles shifted back
   * flush with its far edges), the tiles come in row-major order, and their
   * union is the container.
   */
  lemma FixedTilesCover(c: Rect, size: RectangleSize)
    requires size.width > 0 && size.height > 0
    ensures size.width >= c.width && size.height >= c.height ==> FixedTiles(c, size) == [c]
    ensures ClampedSize(c, size) != c.GetSize() ==>
              forall t :: t in FixedTiles(c, size) ==> t.GetSize() == ClampedSize(c, size) && c.Contains(t)
    ensures RowMajor(FixedTiles(c, size))
    ensures UnionIs(FixedTiles(c, size), c)
  {
    var s := ClampedSize(c, size);
    var tiles := FixedTiles(c, size);
    if s.width == c.width && s.height == c.height {
      assert tiles == [c];
      forall x, y ensures c.HasPixel(x, y) <==> exists k :: 0 <= k < |tiles| && tiles[k].HasPixel(x, y) {
        if c.HasPixel(x, y) {
          assert tiles[0].HasPixel(x, y);
        }
      }
    } else {
      FixedRowsShape(c, s.width, s.height, c.top);
      forall x, y ensures c.HasPixel(x, y) <==> exists k :: 0 <= k < |tiles| && tiles[k].HasPixel(x, y) {
        if c.HasPixel(x, y) {
          var k := FixedRowsCover(c, s.width, s.height, c.top, x, y);
        }
        if exists k :: 0 <= k < |tiles| && tiles[k].HasPixel(x, y) {
          var k :| 0 <= k < |tiles| && tiles[k].HasPixel(x, y);
          assert tiles[k] in tiles;
        }
      }
    }
  }

  /**
   * The near edges the fixed-size policy walks along one axis ending at `hi`,
   * from `pos` on, in steps of `w`: an edge whose tile would pass `hi` is
   * shifted back so that the tile ends at `hi`, and that tile is the last.
   */
  function FixedEdges(hi: int, w: nat, pos: int): seq<int>
    requires w > 0
    decreases hi - pos
  {
    if pos > hi - 1 then []
    else
      var p := if pos + w > hi - 1 then (hi - 1 - w) + 1 else pos;
      [p] + FixedEdges(hi, w, p + w)
  }

  /**
   * `e` are the near edges of tiles of extent `w` along `[lo, hi)`: the first
   * at `lo`, each next one exactly `w` further, except the last, whose tile
   * ends at `hi` and which lies after the one before by at most `w`.
   */
  ghost predicate SteppedEdges(e: seq<int>, lo: int, hi: int, w: nat) {
    && |e| > 0 && e[0] == lo && e[|e| - 1] + w == hi
    && (forall i :: 0 <= i < |e| - 2 ==> e[i + 1] == e[i] + w)
    && (|e| > 1 ==> e[|e| - 2] < e[|e| - 1] <= e[|e| - 2] + w)
  }

  /** The edges advance by `w` until the last, which is shifted back flush with `hi`. */
  lemma {:induction false} FixedEdgesSteps(lo: int, hi: int, w: nat, pos: int)
    requires 0 < w <= hi - lo && lo <= pos
    ensures var e := FixedEdges(hi, w, pos);
            && (|e| > 0 <==> pos < hi)
            && (pos < hi ==> e[|e| - 1] + w == hi)
            && (pos < hi && pos + w <= hi ==> e[0] == pos)
            && (|e| > 1 ==> e[0] == pos)
            && (forall i :: 0 <= i < |e| - 2 ==> e[i + 1] == e[i] + w)
            && (|e| > 1 ==> e[|e| - 2] < e[|e| - 1] <= e[|e| - 2] + w)
    decreases hi - pos
  {
    if pos < hi {
      var e := FixedEdges(hi, w, pos);
      var p := if pos + w > hi - 1 then (hi - 1 - w) + 1 else pos;
      var rest := FixedEdges(hi, w, p + w);
      assert e == [p] + rest;
      FixedEdgesSteps(lo, hi, w, p + w);
      forall i | 0 <= i < |e| - 2 ensures e[i + 1] == e[i] + w {
        if i > 0 {
          assert e[i] == rest[i - 1] && e[i + 1] == rest[i];
        }
      }
    }
  }

  /** One `w` by `h` tile at row `top` for each column edge in `lefts`, left to right. */
  function RowAt(lefts: seq<int>, top: int, w: nat, h: nat): (r: seq<Rect>)
    ensures |r| == |lefts|
    ensures forall i :: 0 <= i < |lefts| ==> r[i] == Rect(lefts[i], top, w, h)
  {
    seq(|lefts|, i requires 0 <= i < |lefts| => Rect(lefts[i], top, w, h))
  }

  /** A row of `w` by `h` tiles for each row edge in `tops`, top to bottom. */
  function GridAt(tops: seq<int>, lefts: seq<int>, w: nat, h: nat): seq<Rect>
    decreases |tops|
  {
    if |tops| == 0 then [] else RowAt(lefts, tops[0], w, h) + GridAt(tops[1..], lefts, w, h)
  }

  lemma {:induction false} FixedRowIsRowAt(c: Rect, w: nat, h: nat, top: int, left: int)
    requires 0 < w <= c.width && c.left <= left
    ensures FixedRow(c, w, h, top, left) == RowAt(FixedEdges(c.Right(), w, left), top, w, h)
    decreases c.Right() - left
  {
    var e := FixedEdges(c.Right(), w, left);
    if left < c.Right() {
      var l := if left + w > c.Right() - 1 then (c.Right() - 1 - w) + 1 else left;
      FixedRowIsRowAt(c, w, h, top, l + w);
      var rest := FixedEdges(c.Right(), w, l + w);
      assert e == [l] + rest;
      assert RowAt(e, top, w, h) == [Rect(l, top, w, h)] + RowAt(rest, top, w, h);
    }
  }

  lemma {:induction false} FixedRowsIsGridAt(c: Rect, w: nat, h: nat, top: int)
    requires 0 < w <= c.width && 0 < h <= c.height && c.top <= top
    ensures FixedRows(c, w, h, top)
            == GridAt(FixedEdges(c.Bottom(), h, top), FixedEdges(c.Right(), w, c.left), w, h)
    decreases c.Bottom() - top
  {
    var tops := FixedEdges(c.Bottom(), h, top);
    if top < c.Bottom() {
      var t := if top + h > c.Bottom() - 1 then (c.Bottom() - 1 - h) + 1 else top;
      FixedRowsUnfold(c, w, h, top, t, []);
      FixedRowIsRowAt(c, w, h, t, c.left);
      FixedRowsIsGridAt(c, w, h, t + h);
      assert tops == [t] + FixedEdges(c.Bottom(), h, t + h);
      assert tops[1..] == FixedEdges(c.Bottom(), h, t + h);
    }
  }

  /** A container without columns has rows without tiles. */
  lemma {:induction false} FixedRowsOfNoColumns(c: Rect, h: nat, top: int)
    requires c.width == 0 && h <= c.height && (c.height > 0 ==> h > 0) && c.top <= top
    ensures FixedRows(c, 0, h, top) == []
    decreases c.Bottom() - top
  {
    if top < c.Bottom() {
      var t := if top + h > c.Bottom() - 1 then (c.Bottom() - 1 - h) + 1 else top;
      FixedRowsUnfold(c, 0, h, top, t, []);
      FixedRowsOfNoColumns(c, h, t + h);
    }
  }

  /**
   * Which tiles the fixed-size policy produces when it does not return the
   * container itself: a tile of the clamped size at every pair of a row edge
   * and a column edge, rows top to bottom and each row left to right. Along
   * each axis the edges start at the container's near edge and advance by
   * the tile size, except the last, which is shifted back so that its tile
   * ends flush with the container's far edge, overlapping the one before.
   * A container without pixels that is not returned itself gives no tiles.
   */
  lemma FixedTilesGrid(c: Rect, size: RectangleSize)
    requires size.width > 0 && size.height > 0
    ensures var s := ClampedSize(c, size);
            s != c.GetSize() && c.width > 0 && c.height > 0 ==>
              && FixedTiles(c, size) == GridAt(FixedEdges(c.Bottom(), s.height, c.top),
                                               FixedEdges(c.Right(), s.width, c.left), s.width, s.height)
              && SteppedEdges(FixedEdges(c.Right(), s.width, c.left), c.left, c.Right(), s.width)
              && SteppedEdges(FixedEdges(c.Bottom(), s.height, c.top), c.top, c.Bottom(), s.height)
    ensures ClampedSize(c, size) != c.GetSize() && (c.width == 0 || c.height == 0) ==> FixedTiles(c, size) == []
  {
    var s := ClampedSize(c, size);
    if s != c.GetSize() && c.width == 0 {
      FixedRowsOfNoColumns(c, s.height, c.top);
    }
    if s != c.GetSize() && c.width > 0 && c.height > 0 {
      FixedRowsIsGridAt(c, s.width, s.height, c.top);
      FixedEdgesSteps(c.left, c.Right(), s.width, c.left);
      FixedEdgesSteps(c.top, c.Bottom(), s.height, c.top);
    }
  }

  /**
   * Two small containers: a varying-size budget as wide as the container
   * gives one tile, and fixed 2-column tiles over 5 columns start at
   * columns 0, 2 and 3, the last shifted back by one.
   */
  lemma TilingExamples()
    ensures VaryingTiles(Rect(0, 0, 2, 1), RectangleSize(2, 1)) == [Rect(0, 0, 2, 1)]
    ensures FixedTiles(Rect(0, 0, 5, 1), RectangleSize(2, 1))
            == [Rect(0, 0, 2, 1), Rect(2, 0, 2, 1), Rect(3, 0, 2, 1)]
  {
    var c := Rect(0, 0, 2, 1);
    assert VaryingRow(c, RectangleSize(2, 1), 0, 1, 2) == [];
    assert VaryingRows(c, RectangleSize(2, 1), 1) == [];
    var f := Rect(0, 0, 5, 1);
    assert FixedRow(f, 2, 1, 0, 5) == [];
    assert FixedRow(f, 2, 1, 0, 3) == [Rect(3, 0, 2, 1)];
    assert FixedRow(f, 2, 1, 0, 2) == [Rect(2, 0, 2, 1), Rect(3, 0, 2, 1)];
    assert FixedRows(f, 2, 1, 1) == [];
  }

  /**
   * `getSubRegionsWithFixedSize`: clamps the tile size to the container,
   * returns a single copy of the container when that is its size, and
   * otherwise walks the container in fixed steps, shifting a tile that would
   * pass the right or bottom edge back flush with it. The size guard raises
   * `ArgumentError` for a zero width or height.
   */
  method GetSubRegionsWithFixedSize(containerRegion: Rect, subRegionSize: RectangleSize)
    returns (result: Result<seq<Rect>, ArgumentError>)
    ensures result.Success? <==> subRegionSize.width > 0 && subRegionSize.height > 0
    ensures subRegionSize.width == 0 ==> result == Failure(ArgumentError("subRegionSize width"))
    ensures subRegionSize.width > 0 && subRegionSize.height == 0 ==>
              result == Failure(ArgumentError("subRegionSize height"))
    ensures result.Success? ==> result.value == FixedTiles(containerRegion, subRegionSize)
  {
    var c := containerRegion;
    var subRegionWidth := subRegionSize.width;
    var subRegionHeight := subRegionSize.height;
    if subRegionWidth <= 0 {
      return Failure(ArgumentError("subRegionSize width"));
    }
    if subRegionHeight <= 0 {
      return Failure(ArgumentError("subRegionSize height"));
    }

    // Normalizing.
    if subRegionWidth > c.width {
      subRegionWidth := c.width;
    }
    if subRegionHeight > c.height {
      subRegionHeight := c.height;
    }
    ghost var s := ClampedSize(c, subRegionSize);
    assert s == RectangleSize(subRegionWidth, subRegionHeight);

    if subRegionWidth == c.width && subRegionHeight == c.height {
      return Success([c]);
    }

    var w, h := subRegionWidth, subRegionHeight;
    ghost var all := FixedRows(c, w, h, c.top);
    assert FixedTiles(c, subRegionSize) == all;
    var subRegions: seq<Rect> := [];
    var currentTop := c.top;
    var bottom := c.top + c.height - 1;

    while currentTop <= bottom
      invariant c.top <= currentTop
      invariant subRegions + FixedRows(c, w, h, currentTop) == all
      decreases bottom + 1 - currentTop
    {
      ghost var rowTop := currentTop;
      if currentTop + h > bottom {
        currentTop := (bottom - h) + 1;
      }
      FixedRowsUnfold(c, w, h, rowTop, currentTop, subRegions);
      var row := FixedSizeRow(c, w, h, currentTop);
      subRegions := subRegions + row;
      currentTop := currentTop + h;
    }
    return Success(subRegions);
  }

  /**
   * The inner loop of `getSubRegionsWithFixedSize`: the row of `w` by `h`
   * tiles at row `currentTop`, the last one shifted back flush with the
   * container's right edge.
   */
  method FixedSizeRow(c: Rect, w: nat, h: nat, currentTop: int) returns (row: seq<Rect>)
    requires w <= c.width && (c.width > 0 ==> w > 0)
    ensures row == FixedRow(c, w, h, currentTop, c.left)
  {
    row := [];
    var right := c.left + c.width - 1;
    var currentLeft := c.left;
    while currentLeft <= right
      invariant c.left <= currentLeft
      invariant row + FixedRow(c, w, h, currentTop, currentLeft) == FixedRow(c, w, h, currentTop, c.left)
      decreases right + 1 - currentLeft
    {
      ghost var tileLeft := currentLeft;
      if currentLeft + w > right {
        currentLeft := (right - w) + 1;
      }
      var tile := Rect(currentLeft, currentTop, w, h);
      FixedRowUnfold(c, w, h, currentTop, tileLeft, currentLeft, row);
      row := row + [tile];
      currentLeft := currentLeft + w;
    }
  }

  /**
   * `getSubRegions`: the fixed-size policy when `isFixedSize` holds, the
   * varying-size policy otherwise.
   */
  method GetSubRegions(region: Rect, subRegionSize: RectangleSize, isFixedSize: bool)
    returns (result: Result<seq<Rect>, ArgumentError>)
    ensures result.Success? <==> subRegionSize.width > 0 && subRegionSize.height > 0
    ensures subRegionSize.width == 0 ==>
              result == Failure(ArgumentError(if isFixedSize then "subRegionSize width" else "maxSubRegionSize.getWidth()"))
    ensures subRegionSize.width > 0 && subRegionSize.height == 0 ==>
              result == Failure(ArgumentError(if isFixedSize then "subRegionSize height" else "maxSubRegionSize.getHeight()"))
    ensures result.Success? ==>
              result.value == if isFixedSize then FixedTiles(region, subRegionSize)
                              else VaryingTiles(region, subRegionSize)
  {
    if isFixedSize {
      result := GetSubRegionsWithFixedSize(region, subRegionSize);
    } else {
      result := GetSubRegionsWithVaryingSize(region, subRegionSize);
    }
  }
}
