/** Control flow: `if`/`else if` chains, `if` as an expression, `loop` with
    a value-carrying `break`, labelled nested loops, a `while` countdown and
    a `for` loop over an array.

    What each loop prints with `println!` is returned as the sequence of
    values it would print, so that the order of the iterations can be
    stated. */
module ControlFlow {
  import opened Prim

  /** Which branch of the divisibility chain runs. */
  datatype Divisibility = DivisibleBy4 | DivisibleBy3 | DivisibleBy2 | NotDivisible

  /** The `if n % 4 == 0 {..} else if n % 3 == 0 {..} else if n % 2 == 0 {..}
      else {..}` chain. Only zero tests of `%` are made, on which Rust's
      truncating remainder and Dafny's agree. The chain takes the first
      condition that holds: each branch runs exactly when its test holds and
      every earlier test fails. */
  function Classify(n: int): (d: Divisibility)
    ensures d == DivisibleBy4 <==> n % 4 == 0
    ensures d == DivisibleBy3 <==> n % 4 != 0 && n % 3 == 0
    ensures d == DivisibleBy2 <==> n % 4 != 0 && n % 3 != 0 && n % 2 == 0
    ensures d == NotDivisible <==> n % 4 != 0 && n % 3 != 0 && n % 2 != 0
  {
    if n % 4 == 0 then DivisibleBy4
    else if n % 3 == 0 then DivisibleBy3
    else if n % 2 == 0 then DivisibleBy2
    else NotDivisible
  }

  /** Multiples of 4 are taken by the first branch, so the "divisible by 2"
      branch only sees numbers that are 2 modulo 4. */
  lemma DivisibleBy2MeansTwoModFour(n: int)
    ensures Classify(n) == DivisibleBy2 ==> n % 4 == 2
  {
  }

  /** `let result = loop { counter += 1; if counter == stop { break counter * 2; } }`,
      with `counter` starting at 0: the loop runs `stop` times and breaks
      with twice the final counter. Both variables are `i32`; the doubling
      panics on overflow, so the stop value must be at most half of
      `i32::MAX`. */
  method BreakWithValue(stop: i32) returns (result: i32, counter: i32)
    requires 1 <= stop <= I32_MAX / 2
    ensures counter == stop && result == 2 * stop
  {
    counter := 0;
    while true
      invariant 0 <= counter < stop
      decreases stop - counter
    {
      counter := counter + 1;
      if counter == stop {
        result := counter * 2;
        break;
      }
    }
  }

  /** A line printed by the labelled loops: `count = {count}` or
      `remaining = {remaining}`. */
  datatype Line = Count(count: int) | Remaining(remaining: int)

  /** What one full pass of the outer loop prints when it ends through the
      inner `break` at 8. */
  function Pass(count: int): seq<Line>
  {
    [Count(count), Remaining(10), Remaining(9), Remaining(8)]
  }

  /** What the first `n` full passes print. */
  function Passes(n: nat): seq<Line>
  {
    if n == 0 then [] else Passes(n - 1) + Pass(n - 1)
  }

  /** The labelled loops:
      `'counting_up: loop { let mut remaining = 10; loop { if remaining == 8 { break; }
      if count == 2 { break 'counting_up; } remaining -= 1; } count += 1; }`.
      Passes 0 and 1 count `remaining` down from 10 to 8 and leave the inner
      loop; on pass 2 the inner loop leaves both loops at once, before
      `remaining` changes, so `count` ends at 2. */
  method CountingUp() returns (count: int, printed: seq<Line>)
    ensures count == 2
    ensures printed == Passes(2) + [Count(2), Remaining(10)]
  {
    count := 0;
    printed := [];
    label countingUp: while true
      invariant 0 <= count <= 2
      invariant printed == Passes(count)
      decreases 2 - count
    {
      printed := printed + [Count(count)];
      var remaining := 10;
      while true
        invariant 8 <= remaining <= 10
        invariant count == 2 ==> remaining == 10
        invariant printed == Passes(count) + [Count(count)] + RemainingFrom(remaining)
        decreases remaining
      {
        printed := printed + [Remaining(remaining)];
        if remaining == 8 {
          break;
        }
        if count == 2 {
          break countingUp;
        }
        remaining := remaining - 1;
      }
      count := count + 1;
    }
  }

  /** The `remaining = ..` lines printed before the inner loop reaches
      `remaining`, counting down from 10. */
  function RemainingFrom(remaining: int): seq<Line>
    requires 8 <= remaining <= 10
    decreases 10 - remaining
  {
    if remaining == 10 then [] else RemainingFrom(remaining + 1) + [Remaining(remaining + 1)]
  }

  /** `while number != 0 { println!("{number}"); number -= 1; }`: prints
      `start`, `start - 1`, ..., 1 and stops at 0. */
  method Countdown(start: nat) returns (number: int, printed: seq<int>)
    ensures number == 0
    ensures |printed| == start
    ensures forall k :: 0 <= k < start ==> printed[k] == start - k
  {
    number := start;
    printed := [];
    while number != 0
      invariant 0 <= number <= start
      invariant |printed| == start - number
      invariant forall k :: 0 <= k < |printed| ==> printed[k] == start - k
    {
      printed := printed + [number];
      number := number - 1;
    }
  }

  /** `for element in a { println!(..) }`: visits every element once, in
      index order. */
  method ForEach(a: array<int>) returns (printed: seq<int>)
    ensures printed == a[..]
  {
    printed := [];
    for k := 0 to a.Length
      invariant printed == a[..k]
    {
      printed := printed + [a[k]];
    }
  }

  /** `main`: 3 is below 5; 6 takes the "divisible by 3" branch although it
      is also even; the `if` expression gives 5; the counting loop breaks
      with 20; the labelled loops end with `count == 2`; the countdown
      prints 3, 2, 1; and the `for` loop prints 10 to 50 in order. */
  method ControlFlowMain() returns (conditionWasTrue: bool, divisibility: Divisibility,
                                    yetAnotherNumber: int, result: int, count: int,
                                    countdown: seq<int>, elements: seq<int>)
    ensures conditionWasTrue
    ensures divisibility == DivisibleBy3 && 6 % 2 == 0
    ensures yetAnotherNumber == 5 && result == 20 && count == 2
    ensures countdown == [3, 2, 1]
    ensures elements == [10, 20, 30, 40, 50]
  {
    var number := 3;
    conditionWasTrue := number < 5;

    divisibility := Classify(6);

    var condition := true;
    yetAnotherNumber := if condition then 5 else 6;

    var counter;
    result, counter := BreakWithValue(10);

    var printed;
    count, printed := CountingUp();

    var last;
    last, countdown := Countdown(3);

    var a := new int[] [10, 20, 30, 40, 50];
    elements := ForEach(a);
  }
}
