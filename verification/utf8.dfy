/** UTF-8, the encoding of every Rust `String` and `&str` (RFC 3629).

    A Rust string is a buffer of bytes that is always valid UTF-8; its
    `len()` counts bytes, `chars()` decodes Unicode scalar values and
    `bytes()`/`as_bytes()` expose the bytes themselves. Dafny's `char` is a
    Unicode scalar value, like Rust's `char`, so a Dafny `string` is what
    `chars()` yields and `Encode` gives the bytes behind it. */
module Utf8 {
  import opened Prim

  /** The byte `b' '`. */
  const SPACE: byte := 0x20

  /** A continuation byte `10xxxxxx`: never the first byte of a character. */
  predicate IsContinuation(b: byte) {
    0x80 <= b < 0xC0
  }

  /** The bytes of one character (RFC 3629, section 3): one byte below
      U+0080, then two, three or four bytes carrying 6 bits per
      continuation byte. */
  function EncodeChar(c: char): (r: seq<byte>)
    ensures 1 <= |r| <= 4
    ensures |r| == 1 <==> (c as int) < 0x80
    ensures |r| == 1 ==> r[0] == c as int
    ensures |r| > 1 ==> 0xC2 <= r[0] <= 0xF4 && forall k :: 1 <= k < |r| ==> IsContinuation(r[k])
  {
    var x := c as int;
    if x < 0x80 then [x]
    else if x < 0x800 then [0xC0 + x / 64, 0x80 + x % 64]
    else if x < 0x1_0000 then [0xE0 + x / 4096, 0x80 + (x / 64) % 64, 0x80 + x % 64]
    else [0xF0 + x / 262144, 0x80 + (x / 4096) % 64, 0x80 + (x / 64) % 64, 0x80 + x % 64]
  }


  /** The first character of `b` and the number of bytes it takes, or `None`
      when `b` does not start with a well-formed sequence: a stray
      continuation byte, a missing continuation byte, an overlong form, a
      surrogate or a value above U+10FFFF. */
  function DecodeChar(b: seq<byte>): (r: Option<(char, nat)>)
    requires |b| > 0
    ensures r.Some? ==> 1 <= r.value.1 <= |b| && r.value.1 <= 4
  {
    var b0: int := b[0];
    if b0 < 0x80 then Some((b0 as char, 1))
    else if b0 < 0xC0 then None
    else if b0 < 0xE0 then
      if |b| < 2 || !IsContinuation(b[1]) then None
      else
        var x := (b0 - 0xC0) * 64 + (b[1] as int - 0x80);
        if x < 0x80 then None else Some((x as char, 2))
    else if b0 < 0xF0 then
      if |b| < 3 || !IsContinuation(b[1]) || !IsContinuation(b[2]) then None
      else
        var x := (b0 - 0xE0) * 4096 + (b[1] as int - 0x80) * 64 + (b[2] as int - 0x80);
        if x < 0x800 || (0xD800 <= x < 0xE000) then None else Some((x as char, 3))
    else if b0 < 0xF8 then
      if |b| < 4 || !IsContinuation(b[1]) || !IsContinuation(b[2]) || !IsContinuation(b[3]) then None
      else
        var x := (b0 - 0xF0) * 262144 + (b[1] as int - 0x80) * 4096 + (b[2] as int - 0x80) * 64 + (b[3] as int - 0x80);
        if x < 0x1_0000 || x > 0x10_FFFF then None else Some((x as char, 4))
    else None
  }

  /** `chars()`: the characters encoded by `b`, or `None` when `b` is not
      valid UTF-8 (which a Rust `String` never is). */
  function Decode(b: seq<byte>): (r: Option<string>)
    decreases |b|
  {
    if b == [] then Some([])
    else
      match DecodeChar(b)
      case None => None
      case Some((c, n)) =>
        match Decode(b[n..])
        case None => None
        case Some(rest) => Some([c] + rest)
  }

  /** Bytes that are valid UTF-8: the contents of every `&str` and `String`. */
  predicate IsUtf8(b: seq<byte>) {
    Decode(b).Some?
  }

  /** The UTF-8 bytes of a string: what `as_bytes()` gives for a literal.
      Decoding them gives the string back, so they are valid UTF-8. */
  function Encode(s: string): (r: seq<byte>)
    ensures |r| >= |s|
    ensures Decode(r) == Some(s)
  {
    if s == [] then []
    else
      var e, rest := EncodeChar(s[0]), Encode(s[1..]);
      DecodeEncodeChar(s[0], rest);
      assert (e + rest)[|e|..] == rest;
      assert [s[0]] + s[1..] == s;
      e + rest
  }

  /** `chars()` of a string. */
  function Chars(b: seq<byte>): (s: string)
    requires IsUtf8(b)
    ensures Encode(s) == b
  {
    EncodeDecode(b);
    Decode(b).value
  }

  /** `str::is_char_boundary`: index `i` starts a character or is the end. */
  predicate IsCharBoundary(b: seq<byte>, i: nat) {
    i == 0 || i == |b| || (i < |b| && !IsContinuation(b[i]))
  }

  /** Every character of `s` is ASCII. */
  predicate IsAscii(s: string) {
    forall k :: 0 <= k < |s| ==> (s[k] as int) < 0x80
  }

  // ---------------------------------------------------------------------
  // Properties

  lemma {:induction false} EncodeAppend(s: string, t: string)
    ensures Encode(s + t) == Encode(s) + Encode(t)
  {
    if s == [] {
      assert s + t == t;
    } else {
      assert (s + t)[0] == s[0];
      assert (s + t)[1..] == s[1..] + t;
      EncodeAppend(s[1..], t);
    }
  }

  /** A string takes as many bytes as characters exactly when it is ASCII;
      otherwise it takes more. */
  lemma {:induction false} ByteLengthIsCharLengthIffAscii(s: string)
    ensures |Encode(s)| == |s| <==> IsAscii(s)
  {
    if s != [] {
      ByteLengthIsCharLengthIffAscii(s[1..]);
      assert IsAscii(s) <==> (s[0] as int) < 0x80 && IsAscii(s[1..]) by {
        if (s[0] as int) < 0x80 && IsAscii(s[1..]) {
          forall k | 0 <= k < |s| ensures (s[k] as int) < 0x80 {
            if k > 0 { assert s[k] == s[1..][k - 1]; }
          }
        }
        if IsAscii(s) {
          forall k | 0 <= k < |s| - 1 ensures (s[1..][k] as int) < 0x80 {
            assert s[1..][k] == s[k + 1];
          }
        }
      }
    }
  }

  /** A value split into a leading part and 6-bit digits, and back. */
  lemma Digits2(x: int, a: int, c1: int)
    requires 0 <= c1 < 64 && x == a * 64 + c1
    ensures x / 64 == a && x % 64 == c1
  {
  }

  lemma Digits3(x: int, a: int, c1: int, c2: int)
    requires 0 <= c1 < 64 && 0 <= c2 < 64 && x == a * 4096 + c1 * 64 + c2
    ensures x / 4096 == a && (x / 64) % 64 == c1 && x % 64 == c2
  {
    Digits2(x, a * 64 + c1, c2);
    Digits2(a * 64 + c1, a, c1);
    assert x / 4096 == (x / 64) / 64;
  }

  lemma Digits4(x: int, a: int, c1: int, c2: int, c3: int)
    requires 0 <= c1 < 64 && 0 <= c2 < 64 && 0 <= c3 < 64
    requires x == a * 262144 + c1 * 4096 + c2 * 64 + c3
    ensures x / 262144 == a && (x / 4096) % 64 == c1 && (x / 64) % 64 == c2 && x % 64 == c3
  {
    Digits2(x, a * 4096 + c1 * 64 + c2, c3);
    Digits3(a * 4096 + c1 * 64 + c2, a, c1, c2);
    assert x / 4096 == (x / 64) / 64;
    assert x / 262144 == ((x / 64) / 64) / 64;
  }

  lemma Join3(x: int)
    requires x >= 0
    ensures x == (x / 4096) * 4096 + ((x / 64) % 64) * 64 + x % 64
  {
    assert (x / 64) / 64 == x / 4096;
  }

  lemma Join4(x: int)
    requires x >= 0
    ensures x == (x / 262144) * 262144 + ((x / 4096) % 64) * 4096 + ((x / 64) % 64) * 64 + x % 64
  {
    assert (x / 64) / 64 == x / 4096;
    assert (x / 4096) / 64 == x / 262144;
    Join3(x);
  }

  /** Decoding the bytes of a character yields that character, whatever follows. */
  lemma DecodeEncodeChar(c: char, rest: seq<byte>)
    ensures DecodeChar(EncodeChar(c) + rest) == Some((c, |EncodeChar(c)|))
  {
    var x := c as int;
    var b := EncodeChar(c) + rest;
    if x < 0x80 {
    } else if x < 0x800 {
      assert (b[0] as int - 0xC0) * 64 + (b[1] as int - 0x80) == x;
    } else if x < 0x1_0000 {
      Join3(x);
      assert (b[0] as int - 0xE0) * 4096 + (b[1] as int - 0x80) * 64 + (b[2] as int - 0x80) == x;
    } else {
      Join4(x);
      assert (b[0] as int - 0xF0) * 262144 + (b[1] as int - 0x80) * 4096 + (b[2] as int - 0x80) * 64 + (b[3] as int - 0x80) == x;
    }
  }

  /** A well-formed sequence is the encoding of the character it decodes to. */
  lemma EncodeDecodeChar(b: seq<byte>)
    requires |b| > 0 && DecodeChar(b).Some?
    ensures b[..DecodeChar(b).value.1] == EncodeChar(DecodeChar(b).value.0)
  {
    var (c, n) := DecodeChar(b).value;
    var x := c as int;
    if n == 2 {
      Digits2(x, b[0] as int - 0xC0, b[1] as int - 0x80);
      assert EncodeChar(c) == [b[0], b[1]];
    } else if n == 3 {
      Digits3(x, b[0] as int - 0xE0, b[1] as int - 0x80, b[2] as int - 0x80);
      assert EncodeChar(c) == [b[0], b[1], b[2]];
    } else if n == 4 {
      Digits4(x, b[0] as int - 0xF0, b[1] as int - 0x80, b[2] as int - 0x80, b[3] as int - 0x80);
      assert EncodeChar(c) == [b[0], b[1], b[2], b[3]];
    }
  }

  /** Decoding a character's bytes followed by `t` decodes `t` after it. */
  lemma DecodeAfterChar(c: char, t: seq<byte>)
    ensures Decode(EncodeChar(c) + t) == if Decode(t).Some? then Some([c] + Decode(t).value) else None
  {
    var e := EncodeChar(c);
    DecodeEncodeChar(c, t);
    assert (e + t)[|e|..] == t;
  }

  /** Valid, non-empty UTF-8 is one character's bytes followed by valid UTF-8. */
  lemma SplitFirstChar(b: seq<byte>) returns (c: char, rest: seq<byte>)
    requires b != [] && Decode(b).Some?
    ensures b == EncodeChar(c) + rest
    ensures Decode(rest).Some? && Decode(b).value == [c] + Decode(rest).value
  {
    var n: nat;
    c, n := DecodeChar(b).value.0, DecodeChar(b).value.1;
    EncodeDecodeChar(b);
    rest := b[n..];
    assert b == b[..n] + rest;
    DecodeAfterChar(c, rest);
  }

  /** Valid UTF-8 has exactly one decoding, and it encodes back to the same bytes. */
  lemma {:induction false} EncodeDecode(b: seq<byte>)
    requires Decode(b).Some?
    ensures Encode(Decode(b).value) == b
    decreases |b|
  {
    if b != [] {
      var c, rest := SplitFirstChar(b);
      EncodeDecode(rest);
      var s := [c] + Decode(rest).value;
      assert s[0] == c && s[1..] == Decode(rest).value;
    }
  }

  /** The two directions together: `b` decodes to `s` exactly when `s` encodes to `b`. */
  lemma DecodeIffEncode(b: seq<byte>, s: string)
    ensures Decode(b) == Some(s) <==> Encode(s) == b
  {
    if Decode(b) == Some(s) {
      EncodeDecode(b);
    }
  }

  /** Joining two valid strings gives a valid string whose characters are
      those of the first followed by those of the second. */
  lemma ConcatChars(a: seq<byte>, b: seq<byte>)
    requires IsUtf8(a) && IsUtf8(b)
    ensures IsUtf8(a + b) && Chars(a + b) == Chars(a) + Chars(b)
  {
    EncodeAppend(Chars(a), Chars(b));
  }

  /** No index strictly inside the first character's bytes is a boundary. */
  lemma BoundaryAfterFirstChar(c: char, rest: seq<byte>, i: nat)
    ensures i == 0 || i >= |EncodeChar(c)| || !IsCharBoundary(EncodeChar(c) + rest, i)
  {
    var e := EncodeChar(c);
    if 0 < i < |e| {
      assert (e + rest)[i] == e[i];
    }
  }

  /** An ASCII string is encoded one byte per character, each byte being
      the character's code. */
  lemma {:induction false} EncodeAscii(s: string)
    requires IsAscii(s)
    ensures |Encode(s)| == |s|
    ensures forall k :: 0 <= k < |s| ==> Encode(s)[k] == s[k] as int
  {
    if s != [] {
      assert IsAscii(s[1..]) by {
        forall k | 0 <= k < |s| - 1 ensures (s[1..][k] as int) < 0x80 {
          assert s[1..][k] == s[k + 1];
        }
      }
      EncodeAscii(s[1..]);
      assert Encode(s) == [s[0] as int] + Encode(s[1..]);
      forall k | 0 <= k < |s| ensures Encode(s)[k] == s[k] as int {
        if k > 0 { assert s[k] == s[1..][k - 1]; }
      }
    }
  }

  /** The bytes Rust stores for a string literal made of ASCII characters:
      one byte per character, the character's code. It is meant for ASCII
      literals only: a character at or above U+0080 is wrapped to its code
      modulo 0x80, which is not its UTF-8 encoding. The function is total
      so that using it needs no proof; it agrees with `Encode` exactly on
      ASCII text (`AsciiIsEncode`), which every literal it is applied to is,
      and non-ASCII text goes through `Encode`. */
  function Ascii(s: string): (r: seq<byte>)
    ensures |r| == |s|
    ensures forall k :: 0 <= k < |s| ==> r[k] == (s[k] as int) % 0x80
  {
    seq(|s|, k requires 0 <= k < |s| => (s[k] as int) % 0x80)
  }

  /** `Ascii` agrees with the general encoder. */
  lemma AsciiIsEncode(s: string)
    requires IsAscii(s)
    ensures Ascii(s) == Encode(s)
  {
    EncodeAscii(s);
    assert forall k :: 0 <= k < |s| ==> Ascii(s)[k] == s[k] as int;
  }

  /** Bytes that are all below 0x80 are valid UTF-8, one character each. */
  lemma {:induction false} AsciiBytesAreUtf8(b: seq<byte>)
    requires forall k :: 0 <= k < |b| ==> b[k] < 0x80
    ensures IsUtf8(b) && |Decode(b).value| == |b|
    decreases |b|
  {
    if b != [] {
      AsciiBytesAreUtf8(b[1..]);
    }
  }

  /** The bytes of an ASCII literal are valid UTF-8. */
  lemma AsciiIsUtf8(s: string)
    ensures IsUtf8(Ascii(s))
  {
    AsciiBytesAreUtf8(Ascii(s));
  }

  /** The characters of an ASCII literal's bytes are the literal's characters. */
  lemma AsciiChars(s: string)
    requires IsAscii(s)
    ensures IsUtf8(Ascii(s)) && Chars(Ascii(s)) == s
  {
    AsciiIsEncode(s);
    DecodeIffEncode(Ascii(s), s);
  }

  /** An ASCII byte is a character of its own: what follows it is valid. */
  lemma DropAsciiByte(b: seq<byte>)
    requires IsUtf8(b) && b != [] && b[0] < 0x80
    ensures IsUtf8(b[1..])
  {
    var c, rest := SplitFirstChar(b);
    assert b[1..] == rest;
  }

  /** In ASCII text every index is a character boundary. */
  lemma AsciiBoundaries(s: string)
    ensures forall i :: 0 <= i <= |s| ==> IsCharBoundary(Ascii(s), i)
  {
  }

  /** Cutting a valid string at a character boundary leaves two valid strings. */
  lemma {:induction false} SplitAtBoundary(b: seq<byte>, i: nat)
    requires IsUtf8(b) && i <= |b| && IsCharBoundary(b, i)
    ensures IsUtf8(b[..i]) && IsUtf8(b[i..])
    decreases |b|
  {
    if i == 0 {
      assert b[..0] == [] && b[0..] == b;
    } else {
      var c, rest := SplitFirstChar(b);
      var e := EncodeChar(c);
      BoundaryAfterFirstChar(c, rest, i);
      var r := rest;
      assert IsCharBoundary(r, i - |e|) by {
        if i < |b| { assert r[i - |e|] == b[i]; }
      }
      SplitAtBoundary(r, i - |e|);
      assert b[..i] == e + r[..i - |e|];
      DecodeAfterChar(c, r[..i - |e|]);
      assert b[i..] == r[i - |e|..];
    }
  }

  /** `&s[i..j]` is valid UTF-8 when both ends are character boundaries,
      which is when Rust's string slicing does not panic. */
  lemma SliceIsValid(b: seq<byte>, i: nat, j: nat)
    requires IsUtf8(b) && i <= j <= |b| && IsCharBoundary(b, i) && IsCharBoundary(b, j)
    ensures IsUtf8(b[i..j])
  {
    SplitAtBoundary(b, i);
    var tail := b[i..];
    assert IsCharBoundary(tail, j - i) by {
      if j < |b| { assert tail[j - i] == b[j]; }
    }
    SplitAtBoundary(tail, j - i);
    assert tail[..j - i] == b[i..j];
  }
}
