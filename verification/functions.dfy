/** Functions: parameters, statements and expressions, and return values.
    The functions that only print (`another_function`,
    `yet_another_function`, `print_labelled_measurement`) have no result
    and are not modelled. */
module Functions {
  import opened Prim

  /** `five() -> i32`: the value of its single expression. */
  function Five(): (r: i32)
    ensures r == 5
  {
    5
  }

  /** `plus_one(x: i32) -> i32`: the successor, which overflows `i32`
      (a panic) for `i32::MAX`. */
  function PlusOne(x: i32): (r: i32)
    requires x < I32_MAX
    ensures r > x
  {
    x + 1
  }

  /** `main`: the block `{ let x = 3; x + 1 }` is an expression worth 4,
      `five()` is 5 and `plus_one(5)` is 6. */
  method FunctionsMain() returns (y: i32, x: i32, z: i32)
    ensures y == 4 && x == 5 && z == 6
  {
    y := (var x := 3; x + 1);
    x := Five();
    z := PlusOne(5);
  }
}
