/** Vectors: creating them, pushing, reading by index or with `get`, and
    updating every element in place. */
module Vectors {
  import opened Prim
  import opened StdVec

  /** `for i in &mut v { *i += delta; }`: adds `delta` to every element in
      place, in index order. An `i32` addition that overflows panics, so
      every sum must stay in range. The length and the buffer stay the
      same. */
  method AddToEach(v: Vec<i32>, delta: i32)
    requires v.Valid()
    requires forall k :: 0 <= k < |v.Elements()| ==> I32_MIN <= v.Elements()[k] + delta <= I32_MAX
    modifies v.buf
    ensures v.Valid()
    ensures |v.Elements()| == |old(v.Elements())|
    ensures forall k :: 0 <= k < |v.Elements()| ==> v.Elements()[k] == old(v.Elements())[k] + delta
  {
    for k := 0 to v.len
      invariant v.Valid()
      invariant forall j :: 0 <= j < k ==> v.buf[j] == old(v.buf[j]) + delta
      invariant forall j :: k <= j < v.buf.Length ==> v.buf[j] == old(v.buf[j])
    {
      assert v.buf[k] == old(v.Elements())[k];
      v.buf[k] := v.buf[k] + delta;
    }
  }

  /** `main`: an empty `Vec::new()`, `vec![1, 2, 3]`, then 5, 6 and 7 pushed
      onto the empty vector; `&v1[2]` and `v1.get(2)` both give 7; adding 50
      to each element gives 55, 56, 57. */
  method VectorsMain() returns (v1New: seq<i32>, v2: seq<i32>, v1: seq<i32>, third: i32,
                                thirdGet: Option<i32>, v1Added: seq<i32>)
    ensures v1New == [] && v2 == [1, 2, 3]
    ensures v1 == [5, 6, 7] && third == 7 && thirdGet == Some(7)
    ensures v1Added == [55, 56, 57]
  {
    var vec1 := new Vec<i32>.New();
    v1New := vec1.Elements();
    vec1.Push(5);
    assert vec1.Elements() == [5];
    vec1.Push(6);
    assert vec1.Elements() == [5, 6];
    vec1.Push(7);
    v1 := vec1.Elements();
    assert v1 == [5, 6, 7];

    third := vec1.Index(2);
    thirdGet := vec1.Get(2);

    AddToEach(vec1, 50);
    v1Added := vec1.Elements();
    assert v1Added == [55, 56, 57];

    var vec2 := new Vec<i32>.FromSeq([1, 2, 3]);
    v2 := vec2.Elements();
  }
}
