/** Ownership: functions that take a `String` by value and hand it back, a
    function that creates one and gives it to its caller, `push_str` on a
    mutable `String`, `clone`, and the copy of an integer.

    A move is not modelled as an operation: once a `String` has moved, the
    compiler rejects every later use of the old binding, so the model
    simply stops using it. What moves is the same buffer, which is why the
    functions below return the object they were given. */
module Ownership {
  import opened Prim
  import opened Utf8
  import opened StdString

  /** `calculate_length(s: String) -> (String, usize)`: gives the string
      back with its length in bytes, unchanged. */
  method CalculateLength(s: RustString) returns (s2: RustString, length: nat)
    requires s.Valid()
    ensures s2 == s && s2.Valid()
    ensures length == |s.bytes|
  {
    length := s.Len();
    s2 := s;
  }

  /** `takes_and_gives_back(a_string: String) -> String`: the same string,
      with the same contents. */
  method TakesAndGivesBack(aString: RustString) returns (r: RustString)
    ensures r == aString && r.bytes == aString.bytes
  {
    r := aString;
  }

  /** `gives_ownership() -> String`: a new string "yours" owned by the
      caller. */
  method GivesOwnership() returns (someString: RustString)
    ensures fresh(someString) && someString.Valid()
    ensures someString.bytes == Ascii("yours")
  {
    AsciiIsUtf8("yours");
    someString := new RustString.From(Ascii("yours"));
  }

  /** "hello" followed by ", world!" is "hello, world!". */
  lemma HelloCommaWorldBang()
    ensures Ascii("hello") + Ascii(", world!") == Ascii("hello, world!")
  {
  }

  /** `main`: `push_str(", world!")` on "hello" gives "hello, world!";
      copying the integer 5 leaves both `x` and `y` at 5; `clone` makes a
      second string with the same contents while the first stays usable;
      `gives_ownership` gives "yours"; `takes_and_gives_back` and
      `calculate_length` hand "hello" back, the latter with length 5. */
  method OwnershipMain() returns (s4: seq<byte>, x: int, y: int, s8: seq<byte>, s9: seq<byte>,
                                  distinct: bool, yours: seq<byte>, s3: seq<byte>,
                                  s2: seq<byte>, len: nat)
    ensures s4 == Ascii("hello, world!")
    ensures x == 5 && y == 5
    ensures s8 == Ascii("hello") && s9 == s8 && distinct
    ensures yours == Ascii("yours")
    ensures s3 == Ascii("hello")
    ensures s2 == Ascii("hello") && len == 5
  {
    AsciiIsUtf8("hello");
    AsciiIsUtf8(", world!");
    var hello := Ascii("hello");

    var str4 := new RustString.From(hello);
    str4.PushStr(Ascii(", world!"));
    HelloCommaWorldBang();
    s4 := str4.bytes;

    x := 5;
    y := x;

    var str8 := new RustString.From(hello);
    var str9 := str8.Clone();
    s8, s9 := str8.bytes, str9.bytes;
    distinct := str8 != str9;

    var owned := GivesOwnership();
    yours := owned.bytes;

    var str2 := new RustString.From(hello);
    var str3 := TakesAndGivesBack(str2);
    s3 := str3.bytes;

    var str1 := new RustString.From(hello);
    var back, length := CalculateLength(str1);
    s2, len := back.bytes, length;
  }
}
