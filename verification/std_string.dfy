/** `String`: an owned, growable buffer of UTF-8 bytes.

    Only the contents are modelled: the address and capacity of the heap
    allocation, and the allocator, are not. The buffer is always valid
    UTF-8 (`Valid`), which every operation below preserves. */
module StdString {
  import opened Prim
  import opened Utf8

  class RustString {
    var bytes: seq<byte>

    ghost predicate Valid()
      reads this
    {
      IsUtf8(bytes)
    }

    /** `String::new()`: an empty string. */
    constructor New()
      ensures Valid() && bytes == []
    {
      bytes := [];
    }

    /** `String::from(s)` and `s.to_string()`: an owned copy of a `&str`. */
    constructor From(s: seq<byte>)
      requires IsUtf8(s)
      ensures Valid() && bytes == s
    {
      bytes := s;
    }

    /** `len()`: the length in bytes, which is at least the number of
        characters and equal to it exactly when the string is ASCII. */
    function Len(): (n: nat)
      reads this
      requires Valid()
      ensures n >= |Chars(bytes)|
      ensures n == |Chars(bytes)| <==> IsAscii(Chars(bytes))
    {
      ByteLengthIsCharLengthIffAscii(Chars(bytes));
      |bytes|
    }

    /** `push_str(s)`: appends every byte of `s` at the end. */
    method PushStr(s: seq<byte>)
      requires Valid() && IsUtf8(s)
      modifies this
      ensures Valid()
      ensures bytes == old(bytes) + s
      ensures Chars(bytes) == Chars(old(bytes)) + Chars(s)
    {
      ConcatChars(bytes, s);
      bytes := bytes + s;
    }

    /** `push(c)`: appends the UTF-8 encoding of one character, so the
        string gains exactly one character. */
    method Push(c: char)
      requires Valid()
      modifies this
      ensures Valid()
      ensures bytes == old(bytes) + EncodeChar(c)
      ensures Chars(bytes) == Chars(old(bytes)) + [c]
    {
      var e := Encode([c]);
      assert [c][1..] == [];
      assert e == EncodeChar(c);
      DecodeIffEncode(e, [c]);
      ConcatChars(bytes, e);
      bytes := bytes + e;
    }

    /** `clear()`: empties the string. */
    method Clear()
      requires Valid()
      modifies this
      ensures Valid() && bytes == [] && Len() == 0
    {
      bytes := [];
    }

    /** `clone()`: a deep copy, a distinct `String` with equal contents. */
    method Clone() returns (r: RustString)
      requires Valid()
      ensures fresh(r) && r.Valid() && r.bytes == bytes
    {
      r := new RustString.From(bytes);
    }

    /** `self + other` (`impl Add<&str> for String`): takes the string by
        value, appends `other` in place and gives the same buffer back. */
    method Add(other: seq<byte>) returns (r: RustString)
      requires Valid() && IsUtf8(other)
      modifies this
      ensures r == this && Valid()
      ensures bytes == old(bytes) + other
      ensures Chars(bytes) == Chars(old(bytes)) + Chars(other)
    {
      PushStr(other);
      r := this;
    }
  }
}
