/** An example program using structs: the area of a rectangle computed
    three ways, from two loose `u32` values, from a tuple and from a
    `Rectangle` struct. */
module StructExample {
  import opened Prim
  import MethodSyntax

  /** The program's `Rectangle` has the same two `u32` fields as the one
      with methods. */
  type Rectangle = MethodSyntax.Rectangle

  /** `area1(width, height)`. Every version multiplies in `u32` and panics
      on overflow, so the product must fit. */
  function Area1(width: u32, height: u32): (a: u32)
    requires width * height <= U32_MAX
    ensures a == 0 <==> width == 0 || height == 0
  {
    MethodSyntax.ProductBounds(width, height);
    width * height
  }

  /** `area2(dimensions: (u32, u32))`. */
  function Area2(dimensions: (u32, u32)): (a: u32)
    requires dimensions.0 * dimensions.1 <= U32_MAX
    ensures a == Area1(dimensions.0, dimensions.1)
  {
    dimensions.0 * dimensions.1
  }

  /** `area3(&Rectangle)`. */
  function Area3(rectangle: Rectangle): (a: u32)
    requires rectangle.width * rectangle.height <= U32_MAX
    ensures a == Area1(rectangle.width, rectangle.height)
  {
    rectangle.width * rectangle.height
  }

  /** The three versions agree on every rectangle, and with the area
      method of the struct. */
  lemma AreasAgree(w: u32, h: u32)
    requires w * h <= U32_MAX
    ensures Area1(w, h) == Area2((w, h)) == Area3(MethodSyntax.Rectangle(w, h))
    ensures Area3(MethodSyntax.Rectangle(w, h)) == MethodSyntax.Rectangle(w, h).Area()
  {
  }

  /** The area grows with either side. */
  lemma Area1Monotone(w: u32, h: u32, w': u32, h': u32)
    requires w <= w' && h <= h' && w' * h' <= U32_MAX
    ensures Area1(w, h) <= Area1(w', h')
  {
    MethodSyntax.ProductMonotone(w, h, w', h');
  }

  /** `dbg!(e)`: prints `e` and gives it back unchanged. */
  function Dbg<T>(e: T): (r: T)
    ensures r == e
  {
    e
  }

  /** `main`: each version gives 1500 for 30 by 50, and `rect3`, whose width
      is `dbg!(30 * scale)` with `scale` 2, is 60 by 50. */
  method StructExampleMain() returns (area1: u32, area2: u32, area3: u32, rect3: Rectangle)
    ensures area1 == 1500 && area2 == 1500 && area3 == 1500
    ensures rect3.width == 60 && rect3.height == 50
  {
    var width1: u32 := 30;
    var height1: u32 := 50;
    area1 := Area1(width1, height1);
    var rect1: (u32, u32) := (30, 50);
    area2 := Area2(rect1);
    var rect2 := MethodSyntax.Rectangle(30, 50);
    area3 := Area3(rect2);
    var scale: u32 := 2;
    rect3 := MethodSyntax.Rectangle(Dbg(30 * scale), 50);
  }
}
