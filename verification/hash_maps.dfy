/** Hash maps: inserting and overwriting scores, `entry().or_insert()`, and
    counting the words of a text. */
module HashMaps {
  import opened Prim
  import opened Utf8
  import opened StdHashMap

  // ---------------------------------------------------------------------
  // Splitting a text into words

  /** A byte that `char::is_whitespace` accepts: space, tab, line feed,
      vertical tab, form feed or carriage return. */
  predicate IsWhitespace(b: byte) {
    b == SPACE || 0x09 <= b <= 0x0D
  }

  predicate NoWhitespace(w: seq<byte>) {
    forall k :: 0 <= k < |w| ==> !IsWhitespace(w[k])
  }

  /** The end of the word that starts `b`: the first whitespace byte, or
      the end of `b`. */
  function WordEnd(b: seq<byte>): (n: nat)
    ensures n <= |b|
    ensures n < |b| ==> IsWhitespace(b[n])
    ensures NoWhitespace(b[..n])
  {
    if b == [] || IsWhitespace(b[0]) then 0 else 1 + WordEnd(b[1..])
  }

  /** `split_whitespace()`: the maximal runs of non-whitespace bytes, in
      order. */
  function SplitWhitespace(s: seq<byte>): (words: seq<seq<byte>>)
    ensures forall i :: 0 <= i < |words| ==> |words[i]| > 0 && NoWhitespace(words[i])
    decreases |s|
  {
    if s == [] then []
    else if IsWhitespace(s[0]) then SplitWhitespace(s[1..])
    else
      var n := WordEnd(s);
      [s[..n]] + SplitWhitespace(s[n..])
  }

  /** Every word of a `&str` is cut at character boundaries, so it is a
      `&str` itself. */
  lemma {:induction false} SplitWhitespaceUtf8(s: seq<byte>)
    requires IsUtf8(s)
    ensures forall i :: 0 <= i < |SplitWhitespace(s)| ==> IsUtf8(SplitWhitespace(s)[i])
    decreases |s|
  {
    if s != [] {
      if IsWhitespace(s[0]) {
        DropAsciiByte(s);
        SplitWhitespaceUtf8(s[1..]);
      } else {
        var n := WordEnd(s);
        SplitAtBoundary(s, n);
        SplitWhitespaceUtf8(s[n..]);
      }
    }
  }

  /** `words.join(" ")`: the words separated by single spaces. */
  function JoinSpace(words: seq<seq<byte>>): seq<byte>
  {
    if |words| == 0 then []
    else if |words| == 1 then words[0]
    else words[0] + ([SPACE] + JoinSpace(words[1..]))
  }

  /** Splitting words joined by single spaces gives the same words back,
      provided none is empty or holds whitespace. */
  lemma {:induction false} SplitJoin(words: seq<seq<byte>>)
    requires forall i :: 0 <= i < |words| ==> |words[i]| > 0 && NoWhitespace(words[i])
    ensures SplitWhitespace(JoinSpace(words)) == words
  {
    if |words| == 1 {
      var w := words[0];
      assert w == w + [];
      SplitLeadingWord(w, [], w);
    } else if |words| > 1 {
      var w, rest, s := words[0], JoinSpace(words[1..]), JoinSpace(words);
      SplitLeadingWord(w, [SPACE] + rest, s);
      SplitLeadingSpace(s[|w|..], rest);
      forall i | 0 <= i < |words| - 1
        ensures |words[1..][i]| > 0 && NoWhitespace(words[1..][i])
      {
        assert words[1..][i] == words[i + 1];
      }
      SplitJoin(words[1..]);
      assert words == [w] + words[1..];
    }
  }

  /** A text that starts with a word followed by whitespace (or nothing)
      splits into that word and the words of the rest. */
  lemma SplitLeadingWord(w: seq<byte>, t: seq<byte>, s: seq<byte>)
    requires s == w + t && w != [] && NoWhitespace(w)
    requires t == [] || IsWhitespace(t[0])
    ensures s[..|w|] == w && s[|w|..] == t
    ensures SplitWhitespace(s) == [w] + SplitWhitespace(t)
  {
    WordEndOfWord(w, t);
    assert s[..|w|] == w && s[|w|..] == t;
    assert !IsWhitespace(s[0]);
  }

  /** A leading space is skipped. */
  lemma SplitLeadingSpace(s: seq<byte>, t: seq<byte>)
    requires s == [SPACE] + t
    ensures SplitWhitespace(s) == SplitWhitespace(t)
  {
    assert s[1..] == t;
  }

  /** A non-empty word followed by whitespace or by nothing ends where
      the word does. */
  lemma {:induction false} WordEndOfWord(w: seq<byte>, t: seq<byte>)
    requires NoWhitespace(w)
    requires t == [] || IsWhitespace(t[0])
    ensures WordEnd(w + t) == |w|
    decreases |w|
  {
    if w != [] {
      assert (w + t)[1..] == w[1..] + t;
      WordEndOfWord(w[1..], t);
    } else {
      assert w + t == t;
    }
  }

  // ---------------------------------------------------------------------
  // Counting words

  /** The counts held after the counting loop has seen `words`: each word's
      entry is created at 0 by `or_insert(0)` when absent, then incremented. */
  function WordCounts(words: seq<seq<byte>>): (r: map<seq<byte>, int>)
    ensures forall c :: c in r.Values ==> 1 <= c <= |words|
  {
    if words == [] then map[]
    else
      var m := WordCounts(words[..|words| - 1]);
      var w := words[|words| - 1];
      assert w in m ==> m[w] in m.Values;
      var r := m[w := (if w in m then m[w] else 0) + 1];
      assert forall c :: c in r.Values ==> c == r[w] || c in m.Values by {
        forall c | c in r.Values
          ensures c == r[w] || c in m.Values
        {
          var k :| k in r && r[k] == c;
          if k != w {
            assert k in m && m[k] == c;
          }
        }
      }
      r
  }

  /** The keys are exactly the words seen, and each count is the number of
      times that word occurs. */
  lemma {:induction false} WordCountsSpec(words: seq<seq<byte>>)
    ensures forall w :: w in WordCounts(words) <==> w in words
    ensures forall w :: w in WordCounts(words) ==> WordCounts(words)[w] == multiset(words)[w]
  {
    if words != [] {
      var seen, w := words[..|words| - 1], words[|words| - 1];
      assert words == seen + [w];
      WordCountsSpec(seen);
    }
  }

  /** The sum of the values of a map. */
  ghost function Total(m: map<seq<byte>, int>): int
    decreases |m|
  {
    if m == map[] then 0
    else
      var k :| k in m;
      m[k] + Total(m - {k})
  }

  /** The total is any one value plus the total of the others. */
  lemma {:induction false} TotalRemove(m: map<seq<byte>, int>, k: seq<byte>)
    requires k in m
    ensures Total(m) == m[k] + Total(m - {k})
    decreases |m|
  {
    var j :| j in m && Total(m) == m[j] + Total(m - {j});
    if j != k {
      TotalRemove(m - {j}, k);
      TotalRemove(m - {k}, j);
      assert m - {j} - {k} == m - {k} - {j};
    }
  }

  /** The counts add up to the number of words. */
  lemma {:induction false} TotalIsWordCount(words: seq<seq<byte>>)
    ensures Total(WordCounts(words)) == |words|
  {
    if words != [] {
      var seen, w := words[..|words| - 1], words[|words| - 1];
      var m := WordCounts(seen);
      var m' := WordCounts(words);
      TotalIsWordCount(seen);
      TotalRemove(m', w);
      assert m' - {w} == m - {w};
      if w in m {
        TotalRemove(m, w);
      } else {
        assert m - {w} == m;
      }
    }
  }

  /** Counting one more word of a text updates the counts of its prefix. */
  lemma WordCountsPrefix(words: seq<seq<byte>>, i: nat)
    requires i < |words|
    ensures WordCounts(words[..i + 1])
         == var m := WordCounts(words[..i]); m[words[i] := (if words[i] in m then m[words[i]] else 0) + 1]
  {
    assert words[..i + 1][..i] == words[..i];
  }

  /** The word-count loop: for each word of `text`, `*map2.entry(word).or_insert(0) += 1`.
      By `WordCountsSpec` the result holds every word of the text and no
      other key, each with its number of occurrences. */
  method CountWords(text: seq<byte>) returns (counts: map<seq<byte>, int>)
    ensures counts == WordCounts(SplitWhitespace(text))
  {
    var words := SplitWhitespace(text);
    var map2 := new HashMap<seq<byte>, int>.New();
    for i := 0 to |words|
      invariant map2.entries == WordCounts(words[..i])
    {
      WordCountsPrefix(words, i);
      var count := map2.EntryOrInsert(words[i], 0);
      var _ := map2.Insert(words[i], count + 1);
    }
    assert words[..|words|] == words;
    counts := map2.entries;
  }

  // ---------------------------------------------------------------------
  // main

  /** The bytes of the literals of `main`. */
  lemma TextBytes()
    ensures Ascii("Hello world wonderful world")
         == [72, 101, 108, 108, 111, 32, 119, 111, 114, 108, 100, 32, 119, 111,
             110, 100, 101, 114, 102, 117, 108, 32, 119, 111, 114, 108, 100]
  {
  }

  lemma WordBytes()
    ensures Ascii("Hello") == [72, 101, 108, 108, 111]
    ensures Ascii("world") == [119, 111, 114, 108, 100]
    ensures Ascii("wonderful") == [119, 111, 110, 100, 101, 114, 102, 117, 108]
  {
  }

  /** The words of "Hello world wonderful world", on its bytes. */
  lemma TextWordsBytes(text: seq<byte>, hello: seq<byte>, world: seq<byte>, wonderful: seq<byte>)
    requires text == [72, 101, 108, 108, 111, 32, 119, 111, 114, 108, 100, 32, 119, 111,
                      110, 100, 101, 114, 102, 117, 108, 32, 119, 111, 114, 108, 100]
    requires hello == [72, 101, 108, 108, 111]
    requires world == [119, 111, 114, 108, 100]
    requires wonderful == [119, 111, 110, 100, 101, 114, 102, 117, 108]
    ensures SplitWhitespace(text) == [hello, world, wonderful, world]
  {
    var words := [hello, world, wonderful, world];
    assert words[2..][1..] == [world];
    var tail2 := wonderful + ([SPACE] + world);
    assert JoinSpace(words[2..]) == tail2;
    assert words[1..][1..] == words[2..];
    var tail1 := world + ([SPACE] + tail2);
    assert JoinSpace(words[1..]) == tail1;
    assert JoinSpace(words) == hello + ([SPACE] + tail1);
    assert hello + ([SPACE] + tail1) == text;
    SplitJoin(words);
  }

  /** The words of "Hello world wonderful world". */
  lemma TextWords()
    ensures SplitWhitespace(Ascii("Hello world wonderful world"))
         == [Ascii("Hello"), Ascii("world"), Ascii("wonderful"), Ascii("world")]
  {
    TextBytes();
    WordBytes();
    TextWordsBytes(Ascii("Hello world wonderful world"), Ascii("Hello"), Ascii("world"), Ascii("wonderful"));
  }

  /** Counting those words: Hello once, world twice, wonderful once. */
  lemma TextCounts()
    ensures WordCounts([Ascii("Hello"), Ascii("world"), Ascii("wonderful"), Ascii("world")])
         == map[Ascii("Hello") := 1, Ascii("world") := 2, Ascii("wonderful") := 1]
  {
    WordBytes();
    var h, w, o := Ascii("Hello"), Ascii("world"), Ascii("wonderful");
    assert h != w && h != o && w != o by { assert h[0] != w[0] && |h| != |o|; }
    var empty: seq<seq<byte>> := [];
    assert WordCounts([h]) == map[h := 1] by { assert [h][..0] == empty; }
    assert WordCounts([h, w]) == map[h := 1, w := 1] by { assert [h, w][..1] == [h]; }
    assert WordCounts([h, w, o]) == map[h := 1, w := 1, o := 1] by { assert [h, w, o][..2] == [h, w]; }
    assert [h, w, o, w][..3] == [h, w, o];
  }

  /** Counting the words of "Hello world wonderful world". */
  lemma TextWordCounts(text: seq<byte>)
    requires text == Ascii("Hello world wonderful world")
    ensures WordCounts(SplitWhitespace(text))
         == map[Ascii("Hello") := 1, Ascii("world") := 2, Ascii("wonderful") := 1]
  {
    TextWords();
    TextCounts();
  }

  /** `main`: "Blue" scores 10 and "Yellow" 50, so looking up "Blue" gives
      10; writing "Blue" again with 10 and then 25 keeps the last value and
      leaves "Yellow" alone; `or_insert(50)` changes neither existing team;
      the (field name, value) map holds its one entry; and the counts of
      "Hello world wonderful world" are Hello 1, world 2, wonderful 1. */
  method HashMapsMain() returns (score: int, scoresAfterOverwrite: map<seq<byte>, int>,
                                 scoresAfterEntry: map<seq<byte>, int>,
                                 fieldMap: map<seq<byte>, seq<byte>>,
                                 wordCounts: map<seq<byte>, int>)
    ensures score == 10
    ensures scoresAfterOverwrite == map[Ascii("Blue") := 25, Ascii("Yellow") := 50]
    ensures scoresAfterEntry == scoresAfterOverwrite
    ensures fieldMap == map[Ascii("Favority colour") := Ascii("Blue")]
    ensures wordCounts == map[Ascii("Hello") := 1, Ascii("world") := 2, Ascii("wonderful") := 1]
  {
    var blue, yellow := Ascii("Blue"), Ascii("Yellow");
    assert blue != yellow by { assert |blue| != |yellow|; }
    var scores := new HashMap<seq<byte>, int>.New();
    var _ := scores.Insert(blue, 10);
    var _ := scores.Insert(yellow, 50);

    score := scores.Get(Ascii("Blue")).UnwrapOr(0);

    var fields := new HashMap<seq<byte>, seq<byte>>.New();
    var _ := fields.Insert(Ascii("Favority colour"), Ascii("Blue"));
    fieldMap := fields.entries;

    var _ := scores.Insert(blue, 10);
    var _ := scores.Insert(blue, 25);
    scoresAfterOverwrite := scores.entries;

    var _ := scores.EntryOrInsert(yellow, 50);
    var _ := scores.EntryOrInsert(blue, 50);
    scoresAfterEntry := scores.entries;

    var text := Ascii("Hello world wonderful world");
    TextWordCounts(text);
    wordCounts := CountWords(text);
  }
}
