/** Variables and mutability: immutable and `mut` bindings, a constant,
    and shadowing in nested scopes. */
module Variables {
  import opened Prim
  import opened Utf8

  /** `const THREE_HOURS_IN_SECONDS: u32 = 60 * 60 * 3`. */
  const THREE_HOURS_IN_SECONDS: u32 := 60 * 60 * 3

  /** `main`:
      - `let mut x = 5` followed by `x = 6` changes the value in place;
      - `let x = x + 1` shadows 5 with 6, the inner scope's `let x = x * 2`
        sees 12, and after the block the outer `x` is 6 again;
      - `let spaces = "    "` shadowed by `spaces.len()` is 4, a number
        where there was a string. */
  method VariablesMain() returns (immutable: int, mutBefore: int, mutAfter: int, constant: u32,
                                  inner: int, outer: int, spaces: nat)
    ensures immutable == 5
    ensures mutBefore == 5 && mutAfter == 6
    ensures constant == 10800
    ensures inner == 12 && outer == 6
    ensures spaces == 4
  {
    var x := 5;
    immutable := x;

    var mutX := 5;
    mutBefore := mutX;
    mutX := 6;
    mutAfter := mutX;

    constant := THREE_HOURS_IN_SECONDS;

    var shadowed := 5;
    var shadowing := shadowed + 1;
    {
      var innerX := shadowing * 2;
      inner := innerX;
    }
    outer := shadowing;

    var spacesText := Ascii("    ");
    spaces := |spacesText|;
  }
}
