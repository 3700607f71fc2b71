/** The slice type: finding the first word of a string, first as an index
    into the string's bytes and then as a string slice, and taking range
    slices of strings and arrays. */
module SliceType {
  import opened Prim
  import opened Utf8
  import opened StdString

  /** Where the first word of `b` ends: the index of the first `b' '`, or
      the length of `b` when it holds no space. */
  function FirstSpace(b: seq<byte>): (i: nat)
    ensures i <= |b|
    ensures i < |b| ==> b[i] == SPACE
    ensures forall j :: 0 <= j < i ==> b[j] != SPACE
    ensures i == |b| <==> forall j :: 0 <= j < |b| ==> b[j] != SPACE
  {
    if b == [] then 0
    else if b[0] == SPACE then 0
    else 1 + FirstSpace(b[1..])
  }

  /** `&s[a..b]`: the bytes from `a` up to `b`. Rust panics unless
      `a <= b <= s.len()` and both ends are character boundaries; then the
      slice is itself valid UTF-8. */
  function StrSlice(s: seq<byte>, a: nat, b: nat): (r: seq<byte>)
    requires IsUtf8(s) && a <= b <= |s| && IsCharBoundary(s, a) && IsCharBoundary(s, b)
    ensures IsUtf8(r)
    ensures |r| == b - a
    ensures forall k :: 0 <= k < |r| ==> r[k] == s[a + k]
  {
    SliceIsValid(s, a, b);
    s[a..b]
  }

  /** The first word ends at a space or at the end, so it can always be sliced. */
  lemma FirstSpaceIsCharBoundary(b: seq<byte>)
    ensures IsCharBoundary(b, FirstSpace(b))
  {
  }

  /** `first_word(&String) -> usize`: scans the bytes and returns the index
      of the first space, or `s.len()` when there is none. */
  method FirstWord(s: RustString) returns (i: nat)
    ensures i == FirstSpace(s.bytes)
  {
    var bytes := s.bytes;
    for k := 0 to |bytes|
      invariant forall j :: 0 <= j < k ==> bytes[j] != SPACE
    {
      if bytes[k] == SPACE {
        return k;
      }
    }
    return |bytes|;
  }

  /** `first_word_2(&String) -> &str`: the same scan, returning the slice
      `&s[0..i]` up to the first space, or `&s[..]` when there is none. */
  method FirstWord2(s: RustString) returns (word: seq<byte>)
    requires s.Valid()
    ensures IsUtf8(word)
    ensures word == s.bytes[..FirstSpace(s.bytes)]
    ensures (forall j :: 0 <= j < |s.bytes| ==> s.bytes[j] != SPACE) ==> word == s.bytes
  {
    var bytes := s.bytes;
    for k := 0 to |bytes|
      invariant forall j :: 0 <= j < k ==> bytes[j] != SPACE
    {
      if bytes[k] == SPACE {
        return StrSlice(s.bytes, 0, k);
      }
    }
    return StrSlice(s.bytes, 0, |s.bytes|);
  }

  /** `first_word_3(&str) -> &str`: `first_word_2` for any string slice; on
      the bytes of a `String` it returns the same word. */
  method FirstWord3(s: seq<byte>) returns (word: seq<byte>)
    requires IsUtf8(s)
    ensures IsUtf8(word)
    ensures word == s[..FirstSpace(s)]
    ensures (forall j :: 0 <= j < |s| ==> s[j] != SPACE) ==> word == s
  {
    for k := 0 to |s|
      invariant forall j :: 0 <= j < k ==> s[j] != SPACE
    {
      if s[k] == SPACE {
        return StrSlice(s, 0, k);
      }
    }
    return StrSlice(s, 0, |s|);
  }

  /** The first word of "hello world" ends at byte 5. */
  lemma HelloWorldFirstSpace(b: seq<byte>)
    requires b == Ascii("hello world")
    ensures FirstSpace(b) == 5
  {
    assert b[5] == SPACE;
    assert forall j :: 0 <= j < 5 ==> b[j] != SPACE;
  }

  /** "hello world" is "hello", a space, then "world". */
  lemma HelloWorldHello()
    ensures Ascii("hello world")[..5] == Ascii("hello")
  {
  }

  lemma HelloWorldWorld()
    ensures Ascii("hello world")[6..11] == Ascii("world")
  {
  }

  /** `main`: the three scans of "hello world" all find the word "hello";
      after `s.clear()` the index 5 computed earlier lies past the end of
      the now empty string. Then `&s[0..5]`, `&s[6..11]` and `&s[..]` of a
      fresh "hello world", and the array slice `&a[1..3]` of `[1, 2, 3, 4, 5]`. */
  method SliceTypeMain() returns (word: nat, word2: seq<byte>, word3: seq<byte>,
                                  lenAfterClear: nat, hello: seq<byte>, world: seq<byte>,
                                  fullString: seq<byte>, slice: seq<int>)
    ensures word == 5 && word2 == Ascii("hello") && word3 == Ascii("hello")
    ensures lenAfterClear == 0 && word > lenAfterClear
    ensures hello == Ascii("hello") && world == Ascii("world") && fullString == Ascii("hello world")
    ensures slice == [2, 3]
  {
    var a := new int[] [1, 2, 3, 4, 5];
    slice := a[1..3];
    assert slice == [2, 3];

    var lit := Ascii("hello world");
    HelloWorldFirstSpace(lit);
    HelloWorldHello();
    HelloWorldWorld();
    AsciiBoundaries("hello world");
    AsciiBytesAreUtf8(lit);
    var s := new RustString.From(lit);
    word := FirstWord(s);
    word2 := FirstWord2(s);
    word3 := FirstWord3(s.bytes);
    s.Clear();
    lenAfterClear := s.Len();

    var s' := new RustString.From(lit);
    hello := StrSlice(s'.bytes, 0, 5);
    world := StrSlice(s'.bytes, 6, 11);
    assert s'.bytes[0..|s'.bytes|] == lit;
    fullString := StrSlice(s'.bytes, 0, |s'.bytes|);
  }
}
