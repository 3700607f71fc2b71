/** References and borrowing: a function that reads a `String` through a
    shared reference and one that appends to it through a mutable one.

    The borrow rules themselves (one mutable reference or any number of
    shared ones) are enforced by the Rust compiler and have no code here;
    the Dafny frames say the same thing for these two functions: the
    first reads the string and cannot change it, the second may change
    only the string it is given. */
module ReferencesBorrowing {
  import opened Prim
  import opened Utf8
  import opened StdString

  /** `calculate_length(s: &String) -> usize`: the length in bytes, read
      through the reference without changing the string. */
  function CalculateLength(s: RustString): (n: nat)
    reads s
    requires s.Valid()
    ensures n == |s.bytes|
    ensures n >= |Chars(s.bytes)|
  {
    s.Len()
  }

  /** `change(some_string: &mut String)`: `push_str(", world")` through the
      mutable reference. The old contents stay a prefix and the string
      grows by seven bytes. */
  method Change(someString: RustString)
    requires someString.Valid()
    modifies someString
    ensures someString.Valid()
    ensures someString.bytes == old(someString.bytes) + Ascii(", world")
    ensures |someString.bytes| == |old(someString.bytes)| + 7
    ensures someString.bytes[..|old(someString.bytes)|] == old(someString.bytes)
  {
    AsciiIsUtf8(", world");
    someString.PushStr(Ascii(", world"));
  }

  /** "hello" followed by ", world" is "hello, world". */
  lemma HelloCommaWorld()
    ensures Ascii("hello") + Ascii(", world") == Ascii("hello, world")
  {
  }

  /** `main`: the length of "hello" is 5 and `s1` is still "hello"
      afterwards; `change` turns a mutable "hello" into "hello, world". */
  method ReferencesMain() returns (len: nat, s1: seq<byte>, changed: seq<byte>)
    ensures len == 5 && s1 == Ascii("hello")
    ensures changed == Ascii("hello, world")
  {
    AsciiIsUtf8("hello");
    var str1 := new RustString.From(Ascii("hello"));
    len := CalculateLength(str1);
    s1 := str1.bytes;

    var s := new RustString.From(Ascii("hello"));
    Change(s);
    HelloCommaWorld();
    changed := s.bytes;
  }
}
