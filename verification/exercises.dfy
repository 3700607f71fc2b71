/** The programming-concepts exercises: the n-th Fibonacci number and the
    verses of "The Twelve Days of Christmas". The temperature conversions
    work on floating point and are not part of this model. */
module Exercises {
  import opened Prim
  import opened Utf8

  // ---------------------------------------------------------------------
  // fibo_n

  /** The Fibonacci numbers, F(0) = 0, F(1) = 1. From F(2) on each number
      is at least its index less one, so the sequence grows without bound. */
  function Fib(k: nat): (r: nat)
    ensures k >= 1 ==> r >= 1
    ensures k >= 2 ==> r >= k - 1
  {
    if k < 2 then k else Fib(k - 2) + Fib(k - 1)
  }

  lemma {:induction false} FibMonotone(i: nat, j: nat)
    requires i <= j
    ensures Fib(i) <= Fib(j)
    decreases j - i
  {
    if i < j {
      FibMonotone(i, j - 1);
      assert Fib(j - 1) <= Fib(j) by {
        if j >= 2 { assert Fib(j) == Fib(j - 2) + Fib(j - 1); }
      }
    }
  }

  /** F(i + 2) = F(i) + F(i + 1), for every `i`. */
  lemma FibNext(i: nat)
    ensures Fib(i + 2) == Fib(i) + Fib(i + 1)
  {
  }

  /** Ten steps at once: F(k + 10) and F(k + 11) are fixed combinations of
      F(k) and F(k + 1). */
  lemma FibJump10(k: nat, a: nat, b: nat)
    requires Fib(k) == a && Fib(k + 1) == b
    ensures Fib(k + 10) == 34 * a + 55 * b && Fib(k + 11) == 55 * a + 89 * b
  {
    FibNext(k); FibNext(k + 1); FibNext(k + 2); FibNext(k + 3); FibNext(k + 4);
    FibNext(k + 5); FibNext(k + 6); FibNext(k + 7); FibNext(k + 8); FibNext(k + 9);
  }

  /** Thirty steps at once. */
  lemma FibJump30(k: nat, a: nat, b: nat)
    requires Fib(k) == a && Fib(k + 1) == b
    ensures Fib(k + 30) == 514229 * a + 832040 * b
    ensures Fib(k + 31) == 832040 * a + 1346269 * b
  {
    FibJump10(k, a, b);
    FibJump10(k + 10, 34 * a + 55 * b, 55 * a + 89 * b);
    FibJump10(k + 20, 4181 * a + 6765 * b, 6765 * a + 10946 * b);
  }

  lemma Fib30()
    ensures Fib(30) == 832040 && Fib(31) == 1346269
  {
    FibJump10(0, 0, 1);
    FibJump10(10, 55, 89);
    FibJump10(20, 6765, 10946);
  }

  lemma Fib60()
    ensures Fib(60) == 1548008755920 && Fib(61) == 2504730781961
  {
    Fib30();
    FibJump30(30, 832040, 1346269);
  }

  lemma Fib90()
    ensures Fib(90) == 2880067194370816120 && Fib(91) == 4660046610375530309
  {
    Fib60();
    FibJump30(60, 1548008755920, 2504730781961);
  }

  /** F(93) = 12200160415121876738 is the largest Fibonacci number a `u64`
      holds: F(94) = 19740274219868223167 is past `u64::MAX`. */
  lemma Fib93And94()
    ensures Fib(93) == 12_200_160_415_121_876_738 <= U64_MAX
    ensures Fib(94) == 19_740_274_219_868_223_167 > U64_MAX
  {
    Fib90();
    FibNext(90);
    FibNext(91);
    FibNext(92);
  }

  /** Every F(k) with `k <= 93` fits in a `u64`. */
  lemma FibFitsU64(k: nat)
    requires k <= 93
    ensures Fib(k) <= U64_MAX
  {
    FibMonotone(k, 93);
    Fib93And94();
  }

  /** `fibo_n(n: u64) -> u64`: 0 for 1, 1 for 2 (after a call to
      `fibo_n(1)` whose result is dropped), and otherwise the sum of the two
      previous values. It is F(n - 1). For `n == 0` the subtraction `n - 2`
      underflows, and from `n == 95` on the sum overflows (`Fib93And94`); Rust
      panics in both cases, so `n` must lie between 1 and 94. */
  function FiboN(n: u64): (r: u64)
    requires 1 <= n <= 94
    ensures r == Fib(n - 1)
  {
    if n == 1 then 0
    else if n == 2 then
      var dropped := FiboN(n - 1);
      1
    else
      FibFitsU64(n - 1);
      FiboN(n - 2) + FiboN(n - 1)
  }

  // ---------------------------------------------------------------------
  // twelve_days

  /** A printed line: the header of a day, or one gift. */
  datatype Line = DayLine(day: nat) | GiftLine(gift: seq<byte>)

  /** The gifts of day `d`, from `gifts[d - 1]` down to `gifts[0]`. */
  function Verse(gifts: seq<seq<byte>>, d: nat): (r: seq<Line>)
    requires d <= |gifts|
    ensures |r| == d
    ensures d > 0 ==> r[d - 1] == GiftLine(gifts[0])
  {
    if d == 0 then [] else [GiftLine(gifts[d - 1])] + Verse(gifts, d - 1)
  }

  /** Day `d` lists the first `d` gifts, the most recent one first. */
  lemma {:induction false} VerseLists(gifts: seq<seq<byte>>, d: nat)
    requires d <= |gifts|
    ensures forall k :: 0 <= k < d ==> Verse(gifts, d)[k] == GiftLine(gifts[d - 1 - k])
  {
    if d > 0 {
      VerseLists(gifts, d - 1);
    }
  }

  /** The song up to day `days`: each day's header followed by its verse. */
  function Song(gifts: seq<seq<byte>>, days: nat): (r: seq<Line>)
    requires days <= |gifts|
    ensures |r| >= 2 * days
    ensures days > 0 ==> r[0] == DayLine(1) && r[|r| - 1] == GiftLine(gifts[0])
  {
    if days == 0 then [] else Song(gifts, days - 1) + [DayLine(days)] + Verse(gifts, days)
  }

  /** The song up to day `days` has `days` headers and 1 + 2 + ... + `days`
      gift lines. */
  lemma {:induction false} SongLength(gifts: seq<seq<byte>>, days: nat)
    requires days <= |gifts|
    ensures 2 * |Song(gifts, days)| == days * (days + 3)
  {
    if days > 0 {
      SongLength(gifts, days - 1);
      assert |Song(gifts, days)| == |Song(gifts, days - 1)| + 1 + days;
      assert days * (days + 3) == (days - 1) * (days + 2) + 2 * (1 + days);
    }
  }

  /** The twelve gifts. */
  const GIFTS: seq<seq<byte>> := [
    Ascii("A patridge in a pear tree"),
    Ascii("Two turtle doves"),
    Ascii("Three French hens"),
    Ascii("Four calling birds"),
    Ascii("Five golden rings"),
    Ascii("Six geese a-laying"),
    Ascii("Seven swans a-swimming"),
    Ascii("Eight maids a-milking"),
    Ascii("Nine ladies dancing"),
    Ascii("Ten lords a-leaping"),
    Ascii("Eleven pipers piping"),
    Ascii("Twelve drummers drumming")
  ]

  /** `twelve_days()`: `for day in 1..13` prints the header of `day`, then
      `for n in (0..day).rev()` prints `gifts[n]`. Every index used is below
      12, the length of the array. */
  method TwelveDays(gifts: array<seq<byte>>) returns (printed: seq<Line>)
    requires gifts.Length == 12
    ensures printed == Song(gifts[..], 12)
  {
    printed := [];
    for day := 1 to 13
      invariant printed == Song(gifts[..], day - 1)
    {
      printed := printed + [DayLine(day)];
      ghost var before := printed;
      for n := day downto 0
        invariant printed == before + Verse(gifts[..], day) [..day - n]
      {
        VerseStep(gifts[..], day, n);
        var gift := gifts[n];
        printed := printed + [GiftLine(gift)];
      }
      assert Verse(gifts[..], day)[..day] == Verse(gifts[..], day);
    }
  }

  /** The verse of day `d` grows one gift at a time, counting down. */
  lemma VerseStep(gifts: seq<seq<byte>>, d: nat, n: nat)
    requires n < d <= |gifts|
    ensures Verse(gifts, d)[..d - n] == Verse(gifts, d)[..d - n - 1] + [GiftLine(gifts[n])]
  {
    VerseLists(gifts, d);
    assert Verse(gifts, d)[d - n - 1] == GiftLine(gifts[n]);
  }

  /** `main`: `fibo_n(13)` is 144, and the song is the twelve days, day `d`
      listing the first `d` gifts from the latest back to the partridge. */
  method ExercisesMain() returns (fibonacci: u64, song: seq<Line>)
    ensures fibonacci == 144
    ensures song == Song(GIFTS, 12)
  {
    var n: u64 := 13;
    fibonacci := FiboN(n);
    assert Fib(12) == 144;
    var gifts := new seq<byte>[12](i requires 0 <= i < 12 => GIFTS[i]);
    assert gifts[..] == GIFTS;
    song := TwelveDays(gifts);
  }
}
