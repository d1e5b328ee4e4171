/**
 * The geometry model: locations, sizes and axis-aligned regions.
 *
 * A region's value is the datatype `Rect` (left, top, width, height); the
 * class `Region` holds those four fields and the operations that update them
 * in place (offset, setLocation, intersect, makeEmpty). A pixel `(x, y)`
 * belongs to a region when `left <= x < left + width` and
 * `top <= y < top + height`.
 */
module Geometry {
  import opened Wrappers

  /** A top-left anchor point; which coordinate space it lives in is the caller's business. */
  datatype Location = Location(x: int, y: int)

  /** The origin, `Location::getZero()`. */
  const Zero: Location := Location(0, 0)

  /** A width and a height, both non-negative. */
  datatype RectangleSize = RectangleSize(width: nat, height: nat)

  /** The exception `ArgumentGuard` raises, naming the offending argument. */
  datatype ArgumentError = ArgumentError(argument: string)

  /** The value of a region. */
  datatype Rect = Rect(left: int, top: int, width: nat, height: nat) {

    /** One past the right-most column. */
    function Right(): int { left + width }

    /** One past the bottom-most row. */
    function Bottom(): int { top + height }

    /** The region's top-left corner (`getLocation`). */
    function GetLocation(): Location { Location(left, top) }

    /** The region's dimensions (`getSize`). */
    function GetSize(): RectangleSize { RectangleSize(width, height) }

    /** Whether pixel `(x, y)` lies in the region. */
    predicate HasPixel(x: int, y: int) {
      left <= x < Right() && top <= y < Bottom()
    }

    /**
     * `isEmpty`: the four fields compared one by one with those of the
     * canonical empty region.
     */
    predicate IsEmpty(): (b: bool)
      ensures b <==> this == GetEmpty()
    {
      var empty := GetEmpty();
      left == empty.left && top == empty.top && width == empty.width && height == empty.height
    }

    /** `contains`: the edges of `other` lie inside this region's, comparing inclusively. */
    predicate Contains(other: Rect) {
      top <= other.top && left <= other.left
      && Bottom() >= other.Bottom() && Right() >= other.Right()
    }

    /**
     * `isIntersected`: on each axis, one region's near edge lies between the
     * other's near and far edge, inclusively, so touching edges count.
     */
    predicate IsIntersected(other: Rect) {
      ((left <= other.left && other.left <= Right())
       || (other.left <= left && left <= other.Right()))
      && ((top <= other.top && other.top <= Bottom())
          || (other.top <= top && top <= other.Bottom()))
    }

    /**
     * The value `intersect` gives the receiver: the canonical empty region
     * when the two do not intersect, otherwise the overlap of the two.
     */
    function Intersection(other: Rect): Rect {
      if !IsIntersected(other) then GetEmpty()
      else
        var l := if left >= other.left then left else other.left;
        var t := if top >= other.top then top else other.top;
        var r := if Right() <= other.Right() then Right() else other.Right();
        var b := if Bottom() <= other.Bottom() then Bottom() else other.Bottom();
        Rect(l, t, r - l, b - t)
    }

    /** The value `offset(dx, dy)` gives the receiver. */
    function Offset(dx: int, dy: int): (r: Rect)
      ensures r.GetSize() == GetSize()
      ensures r.GetLocation() == Location(left + dx, top + dy)
    {
      Rect(left + dx, top + dy, width, height)
    }

    /** The value `setLocation(location)` gives the receiver. */
    function WithLocation(location: Location): (r: Rect)
      ensures r.GetSize() == GetSize() && r.GetLocation() == location
    {
      Rect(location.x, location.y, width, height)
    }

    /**
     * Construction from explicit coordinates: `ArgumentGuard` rejects a
     * negative width (checked first) or a negative height.
     */
    static function Make(left: int, top: int, width: int, height: int): (r: Result<Rect, ArgumentError>)
      ensures r.Success? <==> width >= 0 && height >= 0
      ensures r.Success? ==> r.value.GetLocation() == Location(left, top)
                             && r.value.width == width && r.value.height == height
      ensures width < 0 ==> r.error == ArgumentError("width")
      ensures width >= 0 && height < 0 ==> r.error == ArgumentError("height")
    {
      if width < 0 then Failure(ArgumentError("width"))
      else if height < 0 then Failure(ArgumentError("height"))
      else Success(Rect(left, top, width, height))
    }

    /** Construction from a location and a size. */
    static function FromLocationSize(location: Location, size: RectangleSize): (r: Rect)
      ensures r.GetLocation() == location && r.GetSize() == size
    {
      Rect(location.x, location.y, size.width, size.height)
    }
  }

  /** `getEmpty`: the canonical empty region, at the origin with no width and no height. */
  function GetEmpty(): (r: Rect)
    ensures r.GetLocation() == Zero && r.GetSize() == RectangleSize(0, 0)
  {
    Rect(0, 0, 0, 0)
  }

  /** A region is rebuilt from its location and size. */
  lemma LocationSizeRoundTrip(r: Rect)
    ensures Rect.FromLocationSize(r.GetLocation(), r.GetSize()) == r
  {
  }

  /** Every region contains itself, and containment is transitive. */
  lemma ContainsIsPreorder(a: Rect, b: Rect, c: Rect)
    ensures a.Contains(a)
    ensures a.Contains(b) && b.Contains(c) ==> a.Contains(c)
  {
  }

  /**
   * `contains` agrees with pixel inclusion: a contained region's pixels are
   * all pixels of the container, and for a region with at least one pixel
   * the converse holds too.
   */
  lemma ContainsMeansPixelInclusion(a: Rect, b: Rect)
    ensures a.Contains(b) ==> forall x, y :: b.HasPixel(x, y) ==> a.HasPixel(x, y)
    ensures b.width > 0 && b.height > 0 && (forall x, y :: b.HasPixel(x, y) ==> a.HasPixel(x, y))
            ==> a.Contains(b)
  {
    if b.width > 0 && b.height > 0 && (forall x, y :: b.HasPixel(x, y) ==> a.HasPixel(x, y)) {
      assert b.HasPixel(b.left, b.top);
      assert b.HasPixel(b.Right() - 1, b.Bottom() - 1);
    }
  }

  /**
   * The canonical empty region is contained exactly in the regions whose
   * closed bounding box holds the origin, so a non-empty region can contain
   * it as well.
   */
  lemma ContainsEmpty(r: Rect)
    ensures r.Contains(GetEmpty()) <==> r.left <= 0 && r.top <= 0 && r.Right() >= 0 && r.Bottom() >= 0
  {
  }

  /** A non-empty region that contains the canonical empty region. */
  lemma NonEmptyContainsEmpty()
    ensures var r := Rect(-5, -5, 10, 10); r.Contains(GetEmpty()) && r != GetEmpty()
  {
  }

  /** `isIntersected` does not depend on the order of its operands. */
  lemma IsIntersectedSymmetric(a: Rect, b: Rect)
    ensures a.IsIntersected(b) <==> b.IsIntersected(a)
  {
  }

  /**
   * `isIntersected` is overlap of the closed extents on both axes: the larger
   * near edge does not pass the smaller far edge.
   */
  lemma IsIntersectedIsClosedOverlap(a: Rect, b: Rect)
    ensures a.IsIntersected(b) <==>
            (Max(a.left, b.left) <= Min(a.Right(), b.Right())
             && Max(a.top, b.top) <= Min(a.Bottom(), b.Bottom()))
  {
  }

  /** Regions that only share an edge count as intersecting. */
  lemma TouchingEdgesIntersect()
    ensures Rect(0, 0, 10, 10).IsIntersected(Rect(10, 0, 10, 10))
    ensures Rect(0, 0, 10, 10).IsIntersected(Rect(0, 10, 10, 10))
    ensures !Rect(0, 0, 10, 10).IsIntersected(Rect(11, 0, 10, 10))
  {
  }

  function Max(a: int, b: int): int { if a >= b then a else b }

  function Min(a: int, b: int): int { if a <= b then a else b }

  /**
   * What `intersect` leaves in the receiver: the empty region when the two do
   * not intersect; otherwise a region contained in both operands, with the
   * larger near edges and the smaller far edges.
   */
  lemma IntersectionBounds(a: Rect, b: Rect)
    ensures !a.IsIntersected(b) ==> a.Intersection(b) == GetEmpty()
    ensures a.IsIntersected(b) ==>
              var i := a.Intersection(b);
              && i.left == Max(a.left, b.left) && i.top == Max(a.top, b.top)
              && i.Right() == Min(a.Right(), b.Right()) && i.Bottom() == Min(a.Bottom(), b.Bottom())
              && a.Contains(i) && b.Contains(i)
  {
  }

  /** The intersection is the same whichever operand is the receiver. */
  lemma IntersectionCommutes(a: Rect, b: Rect)
    ensures a.Intersection(b) == b.Intersection(a)
  {
  }

  /** Every region contained in both operands is contained in their intersection. */
  lemma IntersectionIsGreatest(a: Rect, b: Rect, c: Rect)
    requires a.Contains(c) && b.Contains(c)
    ensures a.IsIntersected(b) && a.Intersection(b).Contains(c)
  {
  }

  /** A pixel lies in the intersection exactly when it lies in both operands. */
  lemma IntersectionPixels(a: Rect, b: Rect, x: int, y: int)
    ensures a.Intersection(b).HasPixel(x, y) <==> a.HasPixel(x, y) && b.HasPixel(x, y)
  {
    if a.HasPixel(x, y) && b.HasPixel(x, y) {
      assert a.IsIntersected(b);
    }
  }

  /** Translating a region translates its pixels. */
  lemma OffsetMovesPixels(r: Rect, dx: int, dy: int, x: int, y: int)
    ensures r.Offset(dx, dy).HasPixel(x + dx, y + dy) <==> r.HasPixel(x, y)
  {
  }

  /** A mutable region: the four fields and the operations that update them in place. */
  class Region {
    var left: int
    var top: int
    var width: nat
    var height: nat

    /** The region's current value. */
    function Value(): Rect
      reads this
    {
      Rect(left, top, width, height)
    }

    /**
     * Builds a region holding `v`; this covers the coordinate constructor
     * (after `Rect.Make`), the location-and-size constructor (after
     * `Rect.FromLocationSize`) and the copy constructor (with `other.Value()`).
     */
    constructor (v: Rect)
      ensures Value() == v
    {
      left, top, width, height := v.left, v.top, v.width, v.height;
    }

    /** `makeEmpty`: the receiver becomes the canonical empty region. */
    method MakeEmpty()
      modifies this
      ensures Value() == GetEmpty() && Value().IsEmpty()
    {
      var empty := GetEmpty();
      left, top, width, height := empty.left, empty.top, empty.width, empty.height;
    }

    /** `offset(dx, dy)`: moves the receiver; its size is unchanged. */
    method Offset(dx: int, dy: int)
      modifies this
      ensures Value() == old(Value()).Offset(dx, dy)
      ensures width == old(width) && height == old(height)
    {
      left := left + dx;
      top := top + dy;
    }

    /** `setLocation(location)`: overwrites the receiver's top-left corner; its size is unchanged. */
    method SetLocation(location: Location)
      modifies this
      ensures Value() == old(Value()).WithLocation(location)
      ensures width == old(width) && height == old(height)
    {
      left := location.x;
      top := location.y;
    }

    /**
     * `intersect(other)`: replaces the receiver with its intersection with
     * `other`. All of `other` is read before the receiver is written, so the
     * method is right even when `other` is the receiver itself.
     */
    method Intersect(other: Region)
      modifies this
      ensures Value() == old(Value()).Intersection(old(other.Value()))
    {
      if !Value().IsIntersected(other.Value()) {
        MakeEmpty();
        return;
      }
      var otherLeft := other.left;
      var otherTop := other.top;
      var intersectionLeft := if left >= otherLeft then left else otherLeft;
      var intersectionTop := if top >= otherTop then top else otherTop;

      var right := left + width;
      var otherRight := otherLeft + other.width;
      var intersectionRight := if right <= otherRight then right else otherRight;
      var intersectionWidth := intersectionRight - intersectionLeft;
      var bottom := top + height;
      var otherBottom := otherTop + other.height;
      var intersectionBottom := if bottom <= otherBottom then bottom else otherBottom;
      var intersectionHeight := intersectionBottom - intersectionTop;

      left := intersectionLeft;
      top := intersectionTop;
      width := intersectionWidth;
      height := intersectionHeight;
    }

    /**
     * `equals(obj)`: false for null and for anything that is not a region,
     * otherwise the four fields compared one by one.
     */
    predicate Equals(obj: object?): (b: bool)
      reads this, obj
      ensures b <==> obj is Region && (obj as Region).Value() == Value()
    {
      obj != null && obj is Region
      && var other := obj as Region;
      left == other.left && top == other.top && width == other.width && height == other.height
    }
  }

  /** `equals` is reflexive and symmetric, and two regions holding the same value are equal. */
  lemma EqualsIsValueEquality(a: Region, b: Region)
    ensures a.Equals(a)
    ensures a.Equals(b) <==> b.Equals(a)
    ensures a.Equals(b) <==> a.Value() == b.Value()
    ensures !a.Equals(null)
  {
  }
}
