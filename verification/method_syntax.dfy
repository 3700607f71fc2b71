/** Method syntax: a `Rectangle` with `u32` sides and the methods and the
    associated constructor of its `impl` block. */
module MethodSyntax {
  import opened Prim

  /** `struct Rectangle { width: u32, height: u32 }`. */
  datatype Rectangle = Rectangle(width: u32, height: u32) {

    /** `area(&self)`: `width * height` in `u32`, which panics when the
        product overflows. The area is zero exactly when a side is zero,
        and otherwise at least as large as either side. */
    function Area(): (a: u32)
      requires width * height <= U32_MAX
      ensures a == 0 <==> width == 0 || height == 0
      ensures a != 0 ==> a >= width && a >= height
    {
      ProductBounds(width, height);
      width * height
    }

    /** `width(&self) -> bool`, the method that shares its name with the
        field: whether the rectangle has a nonzero width. A rectangle of
        nonzero height has a nonzero area exactly when it has a width. */
    function HasWidth(): (r: bool)
      ensures height > 0 ==> (r <==> width * height > 0)
      ensures !r ==> width * height == 0
    {
      ProductBounds(width, height);
      width > 0
    }

    /** `can_hold(&self, other)`: `other` fits strictly inside in both
        dimensions. A rectangle that can hold another one has a strictly
        larger product of sides and has both sides nonzero. */
    function CanHold(other: Rectangle): (r: bool)
      ensures r ==> width > 0 && height > 0
      ensures r ==> other.width * other.height < width * height
    {
      if width > other.width && height > other.height then
        ProductMonotone(other.width, other.height, width - 1, height);
        assert width * height == (width - 1) * height + height;
        true
      else
        false
    }
  }

  /** A product of naturals is zero exactly when a factor is, and otherwise
      at least either factor. */
  lemma {:induction false} ProductBounds(x: nat, y: nat)
    ensures x * y == 0 <==> x == 0 || y == 0
    ensures x * y != 0 ==> x * y >= x && x * y >= y
  {
    if y > 0 {
      ProductBounds(x, y - 1);
      assert x * y == x * (y - 1) + x;
    }
  }

  /** Enlarging both factors of a product of naturals cannot shrink it. */
  lemma {:induction false} ProductMonotone(x: nat, y: nat, x': nat, y': nat)
    requires x <= x' && y <= y'
    ensures x * y <= x' * y'
  {
    if y > 0 {
      ProductMonotone(x, y - 1, x', y' - 1);
      assert x * y == x * (y - 1) + x;
      assert x' * y' == x' * (y' - 1) + x';
    }
  }

  /** `Rectangle::square(size)`: the associated function that builds a
      square. */
  function Square(size: u32): (r: Rectangle)
    ensures r.width == size && r.height == size
    ensures r.HasWidth() <==> size > 0
  {
    Rectangle(size, size)
  }

  /** A rectangle that can hold another one has a nonzero width, so
      `width()` is true for it. */
  lemma CanHoldHasWidth(r: Rectangle, other: Rectangle)
    ensures r.CanHold(other) ==> r.HasWidth() && r.height > 0
  {
  }

  /** No rectangle can hold itself. */
  lemma CanHoldIrreflexive(r: Rectangle)
    ensures !r.CanHold(r)
  {
  }

  /** Two rectangles never hold each other. */
  lemma CanHoldAsymmetric(r: Rectangle, s: Rectangle)
    ensures r.CanHold(s) ==> !s.CanHold(r)
  {
  }

  /** Holding is transitive. */
  lemma CanHoldTransitive(r: Rectangle, s: Rectangle, t: Rectangle)
    ensures r.CanHold(s) && s.CanHold(t) ==> r.CanHold(t)
  {
  }

  /** A rectangle that holds another one has a strictly larger area. */
  lemma CanHoldLargerArea(r: Rectangle, s: Rectangle)
    requires r.width * r.height <= U32_MAX && r.CanHold(s)
    ensures s.width * s.height < r.width * r.height
    ensures s.Area() < r.Area()
  {
  }

  /** Squares are ordered by their sides: one holds the other exactly when
      its side is longer. */
  lemma SquareCanHold(a: u32, b: u32)
    ensures Square(a).CanHold(Square(b)) <==> a > b
  {
  }

  /** `main`: `rect1` (30 by 50) has area 1500 and a nonzero width, holds
      `rect2` (10 by 40) but not `rect3` (60 by 45), and `square(10)` is 10
      by 10. */
  method MethodSyntaxMain() returns (area: u32, hasWidth: bool, holds2: bool, holds3: bool,
                                     square: Rectangle)
    ensures area == 1500 && hasWidth
    ensures holds2 && !holds3
    ensures square.width == 10 && square.height == 10
  {
    var rect1 := Rectangle(30, 50);
    var rect2 := Rectangle(10, 40);
    var rect3 := Rectangle(60, 45);
    var rect4 := Square(10);
    area := rect1.Area();
    hasWidth := rect1.HasWidth();
    holds2 := rect1.CanHold(rect2);
    holds3 := rect1.CanHold(rect3);
    square := rect4;
  }
}
