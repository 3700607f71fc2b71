/** Strings: creating a `String` empty or from a literal, growing it with
    `push_str` and `push`, joining two with `+`, and looking at its
    contents as characters or as bytes. */
module Strings {
  import opened Prim
  import opened Utf8
  import opened StdString

  /** "été": three characters, the first and last outside ASCII. */
  const ETE: string := "\U{E9}t\U{E9}"

  /** Under UTF-8 (RFC 3629, section 3) each "é" (U+00E9) takes the two
      bytes 0xC3 0xA9, so the three characters of "été" take five bytes. */
  lemma EteBytes()
    ensures |ETE| == 3
    ensures Encode(ETE) == [0xC3, 0xA9, 0x74, 0xC3, 0xA9]
  {
    assert EncodeChar('\U{E9}') == [0xC3, 0xA9];
    assert ETE == ['\U{E9}'] + "t\U{E9}";
    assert "t\U{E9}" == ['t'] + ['\U{E9}'];
  }

  /** "Hello, " followed by "World!" is "Hello, World!". */
  lemma HelloWorldJoined()
    ensures Ascii("Hello, ") + Ascii("World!") == Ascii("Hello, World!")
  {
  }

  /** `main`:
      - `String::new()` is empty;
      - `data.to_string()`, `"initial contents".to_string()` and
        `String::from("initial contents")` hold the same bytes;
      - `push_str` on an empty string gives the literal it is passed;
      - `push('A')` on an empty string gives "A", one character;
      - `s8 + &s9` is "Hello, World!" while `s9` stays "World!";
      - "été" gives three `chars()` and five `bytes()`. */
  method StringsMain() returns (s1: seq<byte>, s2: seq<byte>, s3: seq<byte>, s4: seq<byte>,
                                s6: seq<byte>, s7: seq<byte>, s9: seq<byte>, s10: seq<byte>,
                                chars: string, bytes: seq<byte>)
    ensures s1 == []
    ensures s2 == Ascii("initial contents") && s3 == s2 && s4 == s2
    ensures s6 == Ascii("Extending a string further")
    ensures s7 == Ascii("A") && IsUtf8(s7) && Chars(s7) == "A"
    ensures s10 == Ascii("Hello, World!") && s9 == Ascii("World!")
    ensures chars == ETE && |chars| == 3
    ensures bytes == [0xC3, 0xA9, 0x74, 0xC3, 0xA9] && |bytes| == 5
  {
    var str1 := new RustString.New();
    s1 := str1.bytes;

    var initial := Ascii("initial contents");
    AsciiIsUtf8("initial contents");
    var data := initial;
    var str2 := new RustString.From(data);
    var str3 := new RustString.From(initial);
    var str4 := new RustString.From(initial);
    s2, s3, s4 := str2.bytes, str3.bytes, str4.bytes;

    var extending := Ascii("Extending a string further");
    AsciiIsUtf8("Extending a string further");
    var str6 := new RustString.New();
    str6.PushStr(extending);
    s6 := str6.bytes;

    var str7 := new RustString.New();
    str7.Push('A');
    AsciiChars("A");
    s7 := str7.bytes;

    AsciiIsUtf8("Hello, ");
    AsciiIsUtf8("World!");
    var str8 := new RustString.From(Ascii("Hello, "));
    var str9 := new RustString.From(Ascii("World!"));
    var str10 := str8.Add(str9.bytes);
    HelloWorldJoined();
    s9, s10 := str9.bytes, str10.bytes;

    EteBytes();
    var ete := Encode(ETE);
    chars, bytes := Chars(ete), ete;
  }
}
